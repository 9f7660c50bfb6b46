/**
 * The class string of an active category filter button in the enhanced
 * projects and skills sections: the category's colour classes with
 * `.replace('/10', '/20').replace('/20', '')` applied. A string pattern
 * given to JavaScript's `replace` replaces its first occurrence only.
 */
module ClassStrings {
  import opened Wrappers

  /** `pat` occurs in `s` starting at position `i`. */
  predicate OccursAt(s: string, pat: string, i: nat) {
    i + |pat| <= |s| && s[i..i + |pat|] == pat
  }

  /** The first occurrence of `pat` in `s` at or after position `i`. */
  function FindFrom(s: string, pat: string, i: nat): (r: Option<nat>)
    decreases |s| - i
    ensures r.Some? ==> i <= r.value && OccursAt(s, pat, r.value)
    ensures r.Some? ==> forall j :: i <= j < r.value ==> !OccursAt(s, pat, j)
    ensures r.None? ==> forall j :: i <= j ==> !OccursAt(s, pat, j)
  {
    if i + |pat| > |s| then None
    else if s[i..i + |pat|] == pat then Some(i)
    else FindFrom(s, pat, i + 1)
  }

  /** `s.indexOf(pat)`, with `None` for -1. */
  function IndexOf(s: string, pat: string): Option<nat> {
    FindFrom(s, pat, 0)
  }

  /** `s.replace(pat, rep)` for a string pattern: the first occurrence only. */
  function ReplaceFirst(s: string, pat: string, rep: string): string {
    match IndexOf(s, pat)
    case None => s
    case Some(i) => s[..i] + rep + s[i + |pat|..]
  }

  /** The active filter button's classes for a category whose colour classes are `c`. */
  function ActiveFilterClass(c: string): string {
    ReplaceFirst(ReplaceFirst(c, "/10", "/20"), "/20", "")
  }

  /** A position where `pat` occurs with no occurrence before it is the one `indexOf` finds. */
  lemma IndexOfIs(s: string, pat: string, k: nat)
    requires OccursAt(s, pat, k)
    requires forall j :: 0 <= j < k ==> !OccursAt(s, pat, j)
    ensures IndexOf(s, pat) == Some(k)
  {
  }

  /**
   * Replacing at the first occurrence puts `rep` there and keeps the text
   * around it.
   */
  lemma ReplaceAt(s: string, pat: string, rep: string, k: nat)
    requires OccursAt(s, pat, k)
    requires forall j :: 0 <= j < k ==> !OccursAt(s, pat, j)
    ensures ReplaceFirst(s, pat, rep) == s[..k] + rep + s[k + |pat|..]
  {
    IndexOfIs(s, pat, k);
  }

  /**
   * A `/20` written after `pre` is the first `/20` of the result when `pre`
   * holds none: the `/` it starts with prevents an earlier `/20` from
   * overlapping it.
   */
  lemma InsertedFirst(pre: string, post: string)
    requires forall j :: 0 <= j < |pre| ==> !OccursAt(pre, "/20", j)
    ensures forall j :: 0 <= j < |pre| ==> !OccursAt(pre + "/20" + post, "/20", j)
  {
    var t := pre + "/20" + post;
    forall j | 0 <= j < |pre|
      ensures !OccursAt(t, "/20", j)
    {
      if j + 3 <= |pre| {
        assert t[j..j + 3] == pre[j..j + 3];
        assert !OccursAt(pre, "/20", j);
      } else if j + 3 <= |t| {
        assert t[j..j + 3][|pre| - j] == '/';
        assert "/20"[|pre| - j] != '/';
      }
    }
  }

  /**
   * When no `/20` starts before the first `/10`, the chain deletes that
   * `/10`.
   */
  lemma ActiveFilterDeletesFirst(c: string, i: nat)
    requires IndexOf(c, "/10") == Some(i)
    requires forall j :: 0 <= j < i ==> !OccursAt(c, "/20", j)
    ensures ActiveFilterClass(c) == ReplaceFirst(c, "/10", "")
    ensures ActiveFilterClass(c) == c[..i] + c[i + 3..]
  {
    var pre, post := c[..i], c[i + 3..];
    var t := pre + "/20" + post;
    assert ReplaceFirst(c, "/10", "/20") == t;
    forall j | 0 <= j < |pre|
      ensures !OccursAt(pre, "/20", j)
    {
      if j + 3 <= |pre| {
        assert pre[j..j + 3] == c[j..j + 3];
        assert !OccursAt(c, "/20", j);
      }
    }
    InsertedFirst(pre, post);
    assert t[i..i + 3] == "/20";
    ReplaceAt(t, "/20", "", i);
    assert t[..i] == pre;
    assert t[i + 3..] == post;
  }

  /**
   * The shape of every colour entry: a first class without `/`, then `/10`.
   * Its first `/10` is right after that prefix, and no `/20` starts before it.
   */
  lemma EntryShape(p: string, r: string)
    requires '/' !in p
    ensures IndexOf(p + "/10" + r, "/10") == Some(|p|)
    ensures forall j :: 0 <= j < |p| ==> !OccursAt(p + "/10" + r, "/20", j)
  {
    var c := p + "/10" + r;
    forall j | 0 <= j < |p|
      ensures !OccursAt(c, "/10", j) && !OccursAt(c, "/20", j)
    {
      assert c[j] == p[j];
    }
    assert c[|p|..|p| + 3] == "/10";
    IndexOfIs(c, "/10", |p|);
  }

  /** On an entry of that shape the active class is the entry with its `/10` deleted. */
  lemma ActiveFilterOfEntry(p: string, r: string)
    requires '/' !in p
    ensures ActiveFilterClass(p + "/10" + r) == ReplaceFirst(p + "/10" + r, "/10", "")
    ensures ActiveFilterClass(p + "/10" + r) == p + r
  {
    var c := p + "/10" + r;
    EntryShape(p, r);
    ActiveFilterDeletesFirst(c, |p|);
    assert c[..|p|] == p;
    assert c[|p| + 3..] == r;
  }

  /**
   * Every entry of the category colour tables has the shape
   * `bg-H/10 text-H border-H/20` for a colour name `H`: the background class,
   * `/10`, then the rest.
   */
  function ColourClasses(hue: string): string {
    Background(hue) + "/10" + ColourRest(hue)
  }

  /** `bg-H`, the background class without its opacity. */
  function Background(hue: string): string {
    "bg-" + hue
  }

  /** ` text-H border-H/20`, what follows the background's `/10`. */
  function ColourRest(hue: string): string {
    " text-" + hue + " border-" + hue + "/20"
  }

  /** For such an entry the active class keeps everything but the first `/10`. */
  lemma ActiveColourClasses(hue: string)
    requires '/' !in hue
    ensures ActiveFilterClass(ColourClasses(hue)) == ReplaceFirst(ColourClasses(hue), "/10", "")
    ensures ActiveFilterClass(ColourClasses(hue)) == Background(hue) + ColourRest(hue)
  {
    var p := Background(hue);
    forall i | 0 <= i < |p|
      ensures p[i] != '/'
    {
      if i >= 3 {
        assert p[i] == hue[i - 3];
      }
    }
    ActiveFilterOfEntry(p, ColourRest(hue));
  }

  /** The first `/10` of `a/20 b/10` is at position 6. */
  lemma FirstTenOfSample()
    ensures IndexOf("a/20 b/10", "/10") == Some(6)
  {
    var c := "a/20 b/10";
    assert OccursAt(c, "/10", 6) by { assert c[6..9] == "/10"; }
    forall j | 0 <= j < 6
      ensures !OccursAt(c, "/10", j)
    {
      assert c[j..j + 3] != "/10" by { assert c[j + 2] != '0' || c[j + 1] != '1'; }
    }
    IndexOfIs(c, "/10", 6);
  }

  /** Deleting the first `/10` of `a/20 b/10` keeps the `/20`. */
  lemma ReplaceFirstEarlierTwenty()
    ensures ReplaceFirst("a/20 b/10", "/10", "") == "a/20 b"
  {
    FirstTenOfSample();
  }

  /** Without the ordering condition the chain deletes a different text: an earlier `/20` goes instead. */
  lemma ActiveFilterEarlierTwenty()
    ensures ActiveFilterClass("a/20 b/10") == "a b/20"
  {
    FirstTenOfSample();
    var t := "a/20 b/20";
    assert ReplaceFirst("a/20 b/10", "/10", "/20") == t;
    assert OccursAt(t, "/20", 1) by { assert t[1..4] == "/20"; }
    assert !OccursAt(t, "/20", 0) by { assert t[0] != '/'; }
    ReplaceAt(t, "/20", "", 1);
  }
}
