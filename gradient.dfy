/** The colour list of a project card's gradient (src/pages/Portfolio.jsx,
    `ProjectCard`): the Tailwind spec `"from-A via-B to-C"` is turned into
    the CSS list `"A, B, C"` by three calls of JavaScript's
    `String.prototype.replace` with a string pattern, each of which
    replaces only the first occurrence. */
module Gradient {
  import opened Options

  /** `pat` occurs in `s` at index `i`. */
  predicate OccursAt(s: string, pat: string, i: nat) {
    i + |pat| <= |s| && s[i..i + |pat|] == pat
  }

  /** The first index at or after `from` where `pat` occurs, or None. */
  function IndexFrom(s: string, pat: string, from: nat): (r: Option<nat>)
    requires from <= |s|
    ensures r.Some? ==> from <= r.value && OccursAt(s, pat, r.value)
    ensures r.Some? ==> forall k :: from <= k < r.value ==> !OccursAt(s, pat, k)
    ensures r.None? ==> forall k :: from <= k <= |s| ==> !OccursAt(s, pat, k)
    decreases |s| - from
  {
    if from + |pat| > |s| then None
    else if s[from..from + |pat|] == pat then Some(from)
    else if from == |s| then None
    else IndexFrom(s, pat, from + 1)
  }

  /** `s.indexOf(pat)`: the least index where `pat` occurs (0 for the
      empty pattern), or None for -1. */
  function IndexOf(s: string, pat: string): (r: Option<nat>)
    ensures r.Some? ==> OccursAt(s, pat, r.value)
    ensures r.Some? ==> forall k :: 0 <= k < r.value ==> !OccursAt(s, pat, k)
    ensures r.None? ==> forall k :: 0 <= k <= |s| ==> !OccursAt(s, pat, k)
  {
    IndexFrom(s, pat, 0)
  }

  /** `s.replace(pat, rep)` with a string pattern and a replacement that
      holds no `$` (JavaScript expands `$&`, `$$` and the like in `rep`). */
  function ReplaceFirst(s: string, pat: string, rep: string): string {
    match IndexOf(s, pat)
    case None => s
    case Some(i) => s[..i] + rep + s[i + |pat|..]
  }

  /** A replace whose pattern does not occur leaves the string unchanged. */
  lemma ReplaceAbsent(s: string, pat: string, rep: string)
    requires forall k :: 0 <= k <= |s| ==> !OccursAt(s, pat, k)
    ensures ReplaceFirst(s, pat, rep) == s
  {
  }

  /** A replace substitutes the first occurrence, and only that one: what
      comes after it, further occurrences included, is kept as it was. */
  lemma ReplaceAtFirst(s: string, pat: string, rep: string, i: nat)
    requires OccursAt(s, pat, i)
    requires forall k :: 0 <= k < i ==> !OccursAt(s, pat, k)
    ensures ReplaceFirst(s, pat, rep) == s[..i] + rep + s[i + |pat|..]
  {
    assert IndexOf(s, pat).Some? by {
      assert OccursAt(s, pat, i);
    }
    var j := IndexOf(s, pat).value;
    assert OccursAt(s, pat, i) && OccursAt(s, pat, j);
    assert j == i;
  }

  /** The style value of `ProjectCard`'s two gradient boxes. */
  function GradientColors(color: string): string {
    ReplaceFirst(ReplaceFirst(ReplaceFirst(color, "from-", ""), " via-", ", "), " to-", ", ")
  }

  /** A colour token in Tailwind's form (`purple-600`) has no space in it. */
  predicate NoSpace(s: string) {
    ' ' !in s
  }

  /** `s` begins with `to-`: a middle stop must not, or `" to-"` would be
      found inside the `", "` the second replace put in front of it. */
  predicate StartsWithTo(s: string) {
    |s| >= 3 && s[0] == 't' && s[1] == 'o' && s[2] == '-'
  }

  /** In a string whose part before `i` holds no space, a pattern that
      starts with a space cannot occur before `i`. */
  lemma NoSpacedPatternBefore(s: string, pat: string, i: nat)
    requires |pat| > 0 && pat[0] == ' '
    requires i <= |s| && NoSpace(s[..i])
    ensures forall k :: 0 <= k < i ==> !OccursAt(s, pat, k)
  {
    forall k | 0 <= k < i ensures !OccursAt(s, pat, k) {
      assert s[..i][k] == s[k] && s[k] in s[..i];
      assert k + |pat| <= |s| ==> s[k..k + |pat|][0] == s[k];
    }
  }

  /** First replace: the leading `from-` is dropped. */
  lemma DropFrom(a: string, b: string, c: string)
    ensures ReplaceFirst("from-" + a + " via-" + b + " to-" + c, "from-", "")
              == a + " via-" + b + " to-" + c
  {
    var s0 := "from-" + a + " via-" + b + " to-" + c;
    assert OccursAt(s0, "from-", 0) by { assert s0[..5] == "from-"; }
    ReplaceAtFirst(s0, "from-", "", 0);
    assert s0[5..] == a + " via-" + b + " to-" + c;
  }

  /** Second replace: the ` via-` right after the first stop becomes `, `. */
  lemma ReplaceVia(a: string, b: string, c: string)
    requires NoSpace(a)
    ensures ReplaceFirst(a + " via-" + b + " to-" + c, " via-", ", ")
              == a + ", " + b + " to-" + c
  {
    var s1 := a + " via-" + b + " to-" + c;
    assert OccursAt(s1, " via-", |a|) by { assert s1[|a|..|a| + 5] == " via-"; }
    assert s1[..|a|] == a;
    NoSpacedPatternBefore(s1, " via-", |a|);
    ReplaceAtFirst(s1, " via-", ", ", |a|);
    assert s1[|a| + 5..] == b + " to-" + c;
  }

  /** Third replace: the ` to-` right after the middle stop becomes `, `. */
  lemma ReplaceTo(a: string, b: string, c: string)
    requires NoSpace(a) && NoSpace(b) && !StartsWithTo(b)
    ensures ReplaceFirst(a + ", " + b + " to-" + c, " to-", ", ") == a + ", " + b + ", " + c
  {
    var s2 := a + ", " + b + " to-" + c;
    var i := |a| + 2 + |b|;
    assert OccursAt(s2, " to-", i) by { assert s2[i..i + 4] == " to-"; }
    forall k | 0 <= k < i ensures !OccursAt(s2, " to-", k) {
      assert k + 4 <= |s2|;
      var w := s2[k..k + 4];
      assert w[0] == s2[k];
      if k < |a| {
        assert s2[k] == a[k] && a[k] in a;
      } else if k == |a| + 1 {
        if |b| >= 3 {
          assert w[1] == b[0] && w[2] == b[1] && w[3] == b[2];
        } else {
          assert w[1 + |b|] == s2[k + 1 + |b|] == ' ';
        }
      } else if k > |a| + 1 {
        assert s2[k] == b[k - |a| - 2] && b[k - |a| - 2] in b;
      }
    }
    ReplaceAtFirst(s2, " to-", ", ", i);
    assert s2[..i] == a + ", " + b;
    assert s2[i + 4..] == c;
  }

  /** The three-stop gradient: `"from-A via-B to-C"` becomes `"A, B, C"`. */
  lemma ThreeStopGradient(color: string, a: string, b: string, c: string)
    requires color == "from-" + a + " via-" + b + " to-" + c
    requires NoSpace(a) && NoSpace(b) && !StartsWithTo(b)
    ensures GradientColors(color) == a + ", " + b + ", " + c
  {
    DropFrom(a, b, c);
    ReplaceVia(a, b, c);
    ReplaceTo(a, b, c);
  }

  /** Third replace on a middle stop that begins with `to-`: the first
      ` to-` is the one made of the `, ` before the stop and its own `to-`. */
  lemma ReplaceToInsideStop(a: string, b: string, c: string)
    requires NoSpace(a)
    ensures ReplaceFirst(a + ", " + ("to-" + b) + " to-" + c, " to-", ", ")
              == a + ",, " + b + " to-" + c
  {
    var s2 := a + ", " + ("to-" + b) + " to-" + c;
    var i := |a| + 1;
    assert OccursAt(s2, " to-", i) by { assert s2[i..i + 4] == " to-"; }
    forall k | 0 <= k < i ensures !OccursAt(s2, " to-", k) {
      assert k + 4 <= |s2|;
      assert s2[k..k + 4][0] == s2[k];
      if k < |a| {
        assert s2[k] == a[k] && a[k] in a;
      }
    }
    ReplaceAtFirst(s2, " to-", ", ", i);
    assert s2[..i] == a + ",";
    assert s2[i + 4..] == b + " to-" + c;
  }

  /** Why the middle stop must not begin with `to-`: for instance
      `"from-a via-to-b to-c"` gives `"a,, b to-c"`. */
  lemma MiddleStopStartingWithTo(color: string, a: string, b: string, c: string)
    requires color == "from-" + a + " via-" + ("to-" + b) + " to-" + c
    requires NoSpace(a)
    ensures GradientColors(color) == a + ",, " + b + " to-" + c
  {
    DropFrom(a, "to-" + b, c);
    ReplaceVia(a, "to-" + b, c);
    ReplaceToInsideStop(a, b, c);
  }

  // The gradient specs of the four projects, written as their stops
  // joined by the Tailwind prefixes.

  lemma HealthLockGradient(color: string)
    requires color == "from-" + "purple-600" + " via-" + "violet-600" + " to-" + "indigo-600"
    ensures GradientColors(color) == "purple-600, violet-600, indigo-600"
  {
    assert NoSpace("purple-600") && NoSpace("violet-600") && !StartsWithTo("violet-600");
    assert "purple-600, violet-600, indigo-600" == "purple-600" + ", " + "violet-600" + ", " + "indigo-600";
    ThreeStopGradient(color, "purple-600", "violet-600", "indigo-600");
  }

  lemma BankFlowGradient(color: string)
    requires color == "from-" + "emerald-600" + " via-" + "teal-600" + " to-" + "cyan-600"
    ensures GradientColors(color) == "emerald-600, teal-600, cyan-600"
  {
    assert NoSpace("emerald-600") && NoSpace("teal-600") && !StartsWithTo("teal-600");
    assert "emerald-600, teal-600, cyan-600" == "emerald-600" + ", " + "teal-600" + ", " + "cyan-600";
    ThreeStopGradient(color, "emerald-600", "teal-600", "cyan-600");
  }

  lemma WealthGrowGradient(color: string)
    requires color == "from-" + "violet-600" + " via-" + "purple-600" + " to-" + "fuchsia-600"
    ensures GradientColors(color) == "violet-600, purple-600, fuchsia-600"
  {
    assert NoSpace("violet-600") && NoSpace("purple-600") && !StartsWithTo("purple-600");
    assert "violet-600, purple-600, fuchsia-600" == "violet-600" + ", " + "purple-600" + ", " + "fuchsia-600";
    ThreeStopGradient(color, "violet-600", "purple-600", "fuchsia-600");
  }

  lemma LatteHeavenGradient(color: string)
    requires color == "from-" + "orange-500" + " via-" + "rose-500" + " to-" + "pink-600"
    ensures GradientColors(color) == "orange-500, rose-500, pink-600"
  {
    assert NoSpace("orange-500") && NoSpace("rose-500") && !StartsWithTo("rose-500");
    assert "orange-500, rose-500, pink-600" == "orange-500" + ", " + "rose-500" + ", " + "pink-600";
    ThreeStopGradient(color, "orange-500", "rose-500", "pink-600");
  }
}
