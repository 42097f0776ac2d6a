/**
 * The rewrite of the forecast feed's issue time, "YYYY-MM-DD HH:MM UTC",
 * into an ISO 8601 string, done by two `String.replace` calls with string
 * patterns. The `Date` built from that string is not part of this model.
 */
module DateUtils {
  import opened Text

  /** Step one, `s.replace(' ', 'T')`. */
  function FirstSpaceToT(s: string): (r: string)
    ensures |r| == |s|
    ensures ' ' !in s ==> r == s
  {
    SingleCharOccurs(s, ' ');
    ReplaceFirst(s, " ", "T")
  }

  /** The ISO 8601 string `parseBMKGDate` hands to `new Date`: the first
      space becomes 'T', then the first " UTC" becomes ":00Z". Both steps
      swap strings of equal length, so the length never changes, and the
      rewrite never fails whatever its input. */
  function ToIsoString(bmkg: string): (r: string)
    ensures |r| == |bmkg|
  {
    ReplaceFirst(FirstSpaceToT(bmkg), " UTC", ":00Z")
  }

  /** An occurrence of a one-character pattern is that character. */
  lemma SingleCharOccurs(s: string, c: char)
    ensures forall j :: OccursAt(s, [c], j) <==> 0 <= j < |s| && s[j] == c
    ensures Contains(s, [c]) <==> c in s
  {
    forall j | 0 <= j < |s| ensures OccursAt(s, [c], j) <==> s[j] == c {
      assert s[j..j + 1] == [s[j]];
    }
    if c in s {
      var j :| 0 <= j < |s| && s[j] == c;
      assert OccursAt(s, [c], j);
    }
  }

  /** Step one changes the first space, at `i`, into 'T' and leaves every
      other character where it was. */
  lemma FirstSpaceIs(s: string, i: int)
    requires 0 <= i < |s| && s[i] == ' '
    requires forall j :: 0 <= j < i ==> s[j] != ' '
    ensures FirstSpaceToT(s) == s[..i] + "T" + s[i + 1..]
    ensures FirstSpaceToT(s)[i] == 'T'
    ensures forall j :: 0 <= j < |s| && j != i ==> FirstSpaceToT(s)[j] == s[j]
  {
    SingleCharOccurs(s, ' ');
    ReplaceFirstAt(s, " ", "T", i);
  }

  /** A string without a space has no " UTC" in it either. */
  lemma NoSpaceNoSuffix(s: string)
    requires ' ' !in s
    ensures !Contains(s, " UTC")
  {
    forall j | 0 <= j && j + 4 <= |s| ensures !OccursAt(s, " UTC", j) {
      assert s[j..j + 4][0] == s[j];
    }
  }

  /** Without a space the input comes back unchanged. */
  lemma NoSpaceUnchanged(s: string)
    requires ' ' !in s
    ensures ToIsoString(s) == s
  {
    NoSpaceNoSuffix(s);
  }

  /** After a date without a space, the separating space becomes 'T'. */
  lemma DateSeparator(date: string, rest: string)
    requires ' ' !in date
    ensures FirstSpaceToT(date + " " + rest) == date + "T" + rest
  {
    var s := date + " " + rest;
    FirstSpaceIs(s, |date|);
    assert s[..|date|] == date;
    assert s[|date| + 1..] == rest;
  }

  /** A " UTC" suffix after text without a space is the first one. */
  lemma UtcSuffix(prefix: string)
    requires ' ' !in prefix
    ensures ReplaceFirst(prefix + " UTC", " UTC", ":00Z") == prefix + ":00Z"
  {
    var s := prefix + " UTC";
    var k := |prefix|;
    assert s[k..k + 4] == " UTC";
    forall j | 0 <= j < k ensures !OccursAt(s, " UTC", j) {
      assert s[j] == prefix[j];
      assert j + 4 <= |s| ==> s[j..j + 4][0] == s[j];
    }
    ReplaceFirstAt(s, " UTC", ":00Z", k);
    assert s[..k] == prefix;
    assert s[k + 4..] == [];
  }

  /** A date and a time without spaces, in the feed's layout, become the
      ISO 8601 instant with zero seconds and the 'Z' offset. */
  lemma WellFormedRewrite(date: string, time: string)
    requires ' ' !in date && ' ' !in time
    ensures ToIsoString(date + " " + time + " UTC") == date + "T" + time + ":00Z"
  {
    assert date + " " + time + " UTC" == date + " " + (time + " UTC");
    DateSeparator(date, time + " UTC");
    assert date + "T" + (time + " UTC") == (date + "T" + time) + " UTC";
    UtcSuffix(date + "T" + time);
  }

  /** Without the " UTC" suffix the second step does nothing: the time is
      left without seconds and without 'Z', and no error is raised. */
  lemma MissingSuffix(date: string, time: string)
    requires ' ' !in date && ' ' !in time
    ensures ToIsoString(date + " " + time) == date + "T" + time
  {
    DateSeparator(date, time);
    NoSpaceNoSuffix(date + "T" + time);
  }

  /** The issue time quoted for the feed. */
  lemma FeedExample()
    ensures ToIsoString("2026-01-08 23:34 UTC") == "2026-01-08T23:34:00Z"
  {
    assert "2026-01-08 23:34 UTC" == "2026-01-08" + " " + "23:34" + " UTC";
    assert "2026-01-08T23:34:00Z" == "2026-01-08" + "T" + "23:34" + ":00Z";
    WellFormedRewrite("2026-01-08", "23:34");
  }

  predicate IsDigit(c: char) { '0' <= c <= '9' }

  /** Digits everywhere in the first 16 characters except the separators
      at 4, 7, 10 and 13. */
  predicate DigitsInPlace(s: string)
    requires |s| >= 16
  {
    forall i :: 0 <= i < 16 && i != 4 && i != 7 && i != 10 && i != 13 ==> IsDigit(s[i])
  }

  /** The feed's layout, "YYYY-MM-DD HH:MM UTC". */
  predicate IsBmkgTimestamp(s: string)
  {
    |s| == 20 && DigitsInPlace(s)
    && s[4] == '-' && s[7] == '-' && s[10] == ' ' && s[13] == ':' && s[16..] == " UTC"
  }

  /** ISO 8601 at minute precision with zero seconds in UTC,
      "YYYY-MM-DDTHH:MM:00Z". */
  predicate IsIsoUtc(r: string)
  {
    |r| == 20 && DigitsInPlace(r)
    && r[4] == '-' && r[7] == '-' && r[10] == 'T' && r[13] == ':' && r[16..] == ":00Z"
  }

  /** Every timestamp in the feed's layout becomes an ISO 8601 UTC instant
      with the same date and the same hour and minute. */
  lemma BmkgBecomesIso(s: string)
    requires IsBmkgTimestamp(s)
    ensures IsIsoUtc(ToIsoString(s))
    ensures ToIsoString(s)[..10] == s[..10] && ToIsoString(s)[11..16] == s[11..16]
  {
    var date, time := s[..10], s[11..16];
    assert ' ' !in date by {
      forall i | 0 <= i < 10 ensures date[i] != ' ' {
        assert date[i] == s[i];
      }
    }
    assert ' ' !in time by {
      forall i | 0 <= i < 5 ensures time[i] != ' ' {
        assert time[i] == s[11 + i];
      }
    }
    assert s == date + " " + time + " UTC";
    WellFormedRewrite(date, time);
    var r := date + "T" + time + ":00Z";
    assert r[..10] == date && r[11..16] == time && r[16..] == ":00Z";
    assert forall i :: 0 <= i < 16 && i != 10 ==> r[i] == s[i];
  }
}
