/**
 * The dashboard's safety-status mapper: a free-text wave category from the
 * forecast feed becomes one of three tiers with a display label and the
 * style class names that colour the page.
 */
module Safety {
  import opened Text

  /** The coarse risk shown to the user. Danger is the default. */
  datatype Tier = Safe | Caution | Danger

  /** The record the mapper returns: the tier's colour name, its
      Indonesian label and four style class names. */
  datatype SafetyStatus = SafetyStatus(
    color: string,
    labelText: string,
    glowClass: string,
    ringColor: string,
    textColor: string,
    bgColor: string)

  /** "tenang" (calm) or "rendah" (low) in the lowercased category. */
  predicate MentionsCalmOrLow(category: string)
  {
    Contains(category, "tenang") || Contains(category, "rendah")
  }

  /** "sedang" (moderate) in the lowercased category. */
  predicate MentionsModerate(category: string)
  {
    Contains(category, "sedang")
  }

  /** The tier the ordered substring tests pick: the safe test first, then the
      caution test, and danger for everything else. */
  function Classify(waveCat: string): (t: Tier)
    ensures t == Safe <==> MentionsCalmOrLow(Lower(waveCat))
    ensures t == Caution <==> !MentionsCalmOrLow(Lower(waveCat)) && MentionsModerate(Lower(waveCat))
    ensures t == Danger <==> !MentionsCalmOrLow(Lower(waveCat)) && !MentionsModerate(Lower(waveCat))
  {
    var category := Lower(waveCat);
    if MentionsCalmOrLow(category) then Safe
    else if MentionsModerate(category) then Caution
    else Danger
  }

  function ColorName(t: Tier): string
  {
    match t
    case Safe => "safe"
    case Caution => "caution"
    case Danger => "danger"
  }

  function LabelOf(t: Tier): string
  {
    match t
    case Safe => "Aman"
    case Caution => "Waspada"
    case Danger => "Bahaya"
  }

  /** The four class names are built around the colour name. */
  predicate StyledByColor(r: SafetyStatus)
  {
    r.glowClass == "glow-" + r.color && r.textColor == "text-" + r.color
    && r.ringColor == "ring-" + r.color + "/30" && r.bgColor == "bg-" + r.color + "/10"
  }

  /** The object literal returned for each tier, with its class names written
      out as in the source: the tier fixes the colour and the label, and the
      colour fixes the four class names. */
  function StatusFor(t: Tier): (r: SafetyStatus)
    ensures r.color == ColorName(t) && r.labelText == LabelOf(t)
    ensures StyledByColor(r)
  {
    match t
    case Safe =>
      assert "glow-safe" == "glow-" + "safe" && "text-safe" == "text-" + "safe";
      assert "ring-safe/30" == "ring-" + "safe" + "/30" && "bg-safe/10" == "bg-" + "safe" + "/10";
      SafetyStatus("safe", "Aman", "glow-safe", "ring-safe/30", "text-safe", "bg-safe/10")
    case Caution =>
      assert "glow-caution" == "glow-" + "caution" && "text-caution" == "text-" + "caution";
      assert "ring-caution/30" == "ring-" + "caution" + "/30" && "bg-caution/10" == "bg-" + "caution" + "/10";
      SafetyStatus("caution", "Waspada", "glow-caution", "ring-caution/30", "text-caution", "bg-caution/10")
    case Danger =>
      assert "glow-danger" == "glow-" + "danger" && "text-danger" == "text-" + "danger";
      assert "ring-danger/30" == "ring-" + "danger" + "/30" && "bg-danger/10" == "bg-" + "danger" + "/10";
      SafetyStatus("danger", "Bahaya", "glow-danger", "ring-danger/30", "text-danger", "bg-danger/10")
  }

  /** `getSafetyStatus(waveCat)`. Total: every category gets a status, and
      each of the three outcomes happens exactly when its condition holds. */
  function GetSafetyStatus(waveCat: string): (r: SafetyStatus)
    ensures var category := Lower(waveCat);
      (r.color == "safe" && r.labelText == "Aman") <==> MentionsCalmOrLow(category)
    ensures var category := Lower(waveCat);
      (r.color == "caution" && r.labelText == "Waspada")
        <==> !MentionsCalmOrLow(category) && MentionsModerate(category)
    ensures var category := Lower(waveCat);
      (r.color == "danger" && r.labelText == "Bahaya")
        <==> !MentionsCalmOrLow(category) && !MentionsModerate(category)
  {
    StatusFor(Classify(waveCat))
  }

  /** Every record the mapper returns has its four class names built around
      its colour. */
  lemma StyleFollowsColor(waveCat: string)
    ensures StyledByColor(GetSafetyStatus(waveCat))
  {
  }

  /** Different tiers are told apart by both their colour and their label,
      so the three records are all different. */
  lemma TiersDistinct(t1: Tier, t2: Tier)
    requires t1 != t2
    ensures ColorName(t1) != ColorName(t2) && LabelOf(t1) != LabelOf(t2)
    ensures StatusFor(t1) != StatusFor(t2)
  {
  }

  /** The mapper sees its input only through `toLowerCase`. */
  lemma CaseInsensitive(waveCat: string)
    ensures GetSafetyStatus(waveCat) == GetSafetyStatus(Lower(waveCat))
  {
    LowerIdempotent(waveCat);
  }

  /** A category mentioning both a safe and a moderate term is safe: the safe
      test is checked first. */
  lemma SafeTakesPriority(waveCat: string)
    requires MentionsCalmOrLow(Lower(waveCat)) && MentionsModerate(Lower(waveCat))
    ensures GetSafetyStatus(waveCat).color == "safe"
  {
  }

  /** How severe a tier is: safe 0, caution 1, danger 2. */
  function Severity(t: Tier): nat
  {
    match t
    case Safe => 0
    case Caution => 1
    case Danger => 2
  }

  /** A word found in `s` is still found once more text is added on either side. */
  lemma {:induction false} ContainsExtended(a: string, s: string, b: string, pat: string)
    requires Contains(s, pat)
    ensures Contains(a + s + b, pat)
  {
    var i :| 0 <= i <= |s| - |pat| && OccursAt(s, pat, i);
    var e := a + s + b;
    assert e[|a| + i..|a| + i + |pat|] == s[i..i + |pat|];
    assert OccursAt(e, pat, |a| + i);
  }

  /** Because every test is a substring test, adding words around a category
      never makes it more severe. */
  lemma {:induction false} ExtraWordsNeverRaiseSeverity(before: string, waveCat: string, after: string)
    ensures Severity(Classify(before + waveCat + after)) <= Severity(Classify(waveCat))
  {
    LowerAppend(before + waveCat, after);
    LowerAppend(before, waveCat);
    var a, s, b := Lower(before), Lower(waveCat), Lower(after);
    assert Lower(before + waveCat + after) == a + s + b;
    if Contains(s, "tenang") {
      ContainsExtended(a, s, b, "tenang");
    } else if Contains(s, "rendah") {
      ContainsExtended(a, s, b, "rendah");
    } else if Contains(s, "sedang") {
      ContainsExtended(a, s, b, "sedang");
    }
  }

  /** The feed's own category names, in the case the feed sends them. */
  lemma CalmAndLowAreSafe()
    ensures GetSafetyStatus("Tenang").labelText == "Aman"
    ensures GetSafetyStatus("Rendah").labelText == "Aman"
  {
    assert Lower("Tenang") == "tenang";
    assert OccursAt("tenang", "tenang", 0);
    assert Lower("Rendah") == "rendah";
    assert OccursAt("rendah", "rendah", 0);
  }

  lemma ModerateIsCaution()
    ensures GetSafetyStatus("Sedang").labelText == "Waspada"
  {
    assert Lower("Sedang") == "sedang";
    assert OccursAt("sedang", "sedang", 0);
    assert "sedang"[0] != "tenang"[0] && "sedang"[0] != "rendah"[0];
  }

  lemma HighIsDanger()
    ensures GetSafetyStatus("Tinggi").labelText == "Bahaya"
  {
    assert Lower("Tinggi") == "tinggi";
    assert "tinggi"[1] != "tenang"[1] && "tinggi"[0] != "rendah"[0] && "tinggi"[0] != "sedang"[0];
  }

  /** "Rendah - Sedang" names both a safe and a moderate term: safe wins. */
  lemma MixedCategoryIsSafe()
    ensures GetSafetyStatus("Rendah - Sedang").labelText == "Aman"
  {
    assert Lower("Rendah - Sedang") == "rendah - sedang";
    assert OccursAt("rendah - sedang", "rendah", 0);
  }
}
