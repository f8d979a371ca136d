// The edit distance of eval/run_edit_improvement.py: a two-row table that is
// swapped row by row, proved to be the least number of single-character edits.
module EditDistance {

  // ----- What the distance means: shortest chains of single edits -----

  // t is s with one more character, at position i of t.
  ghost predicate InsertsAt(s: string, t: string, i: nat) {
    i < |t| && s == t[..i] + t[i + 1..]
  }

  // t is s with the character at position i replaced.
  ghost predicate SubstitutesAt(s: string, t: string, i: nat) {
    i < |s| && |t| == |s| && t == s[i := t[i]]
  }

  // One insertion, deletion or substitution, anywhere in the string.
  ghost predicate OneEdit(s: string, t: string) {
    exists i: nat :: InsertsAt(s, t, i) || InsertsAt(t, s, i) || SubstitutesAt(s, t, i)
  }

  ghost predicate EditPath(p: seq<string>, a: string, b: string) {
    && |p| > 0 && p[0] == a && p[|p| - 1] == b
    && forall k :: 0 <= k < |p| - 1 ==> OneEdit(p[k], p[k + 1])
  }

  // n edits suffice and no chain of edits is shorter.
  ghost predicate IsEditDistance(a: string, b: string, n: nat) {
    && (exists p :: EditPath(p, a, b) && |p| == n + 1)
    && (forall p :: EditPath(p, a, b) ==> |p| >= n + 1)
  }

  // ----- The recurrence the table is filled by -----

  function Min3(x: nat, y: nat, z: nat): nat {
    if x <= y && x <= z then x else if y <= z then y else z
  }

  // Equal last characters take the diagonal without looking at the other two cells.
  function Dist(a: string, b: string): nat
    decreases |a| + |b|
  {
    if a == "" then |b|
    else if b == "" then |a|
    else
      var w, x := a[..|a| - 1], b[..|b| - 1];
      if a[|a| - 1] == b[|b| - 1] then Dist(w, x)
      else 1 + Min3(Dist(w, b), Dist(a, x), Dist(w, x))
  }

  lemma {:induction false} DistSnoc(w: string, d: char, x: string, e: char)
    ensures Dist(w + [d], x + [e]) ==
            if d == e then Dist(w, x)
            else 1 + Min3(Dist(w, x + [e]), Dist(w + [d], x), Dist(w, x))
  {
    var a, b := w + [d], x + [e];
    assert a[..|a| - 1] == w && b[..|b| - 1] == x;
  }

  lemma {:induction false} Unsnoc(s: string)
    requires s != ""
    ensures s == s[..|s| - 1] + [s[|s| - 1]]
  {
  }

  lemma {:induction false} DistSymmetric(a: string, b: string)
    ensures Dist(a, b) == Dist(b, a)
    decreases |a| + |b|
  {
    if a != "" && b != "" {
      var w, x := a[..|a| - 1], b[..|b| - 1];
      DistSymmetric(w, x);
      DistSymmetric(w, b);
      DistSymmetric(a, x);
    }
  }

  lemma {:induction false} DistSelf(a: string)
    ensures Dist(a, a) == 0
  {
    if a != "" { DistSelf(a[..|a| - 1]); }
  }

  // Adding or dropping the last character of the second string moves the distance by at most one.
  lemma {:induction false} DistLastChar(a: string, x: string, e: char)
    ensures Dist(a, x + [e]) <= Dist(a, x) + 1
    ensures Dist(a, x) <= Dist(a, x + [e]) + 1
    decreases |a| + |x|
  {
    if a == "" {
    } else {
      Unsnoc(a);
      var w, d := a[..|a| - 1], a[|a| - 1];
      DistSnoc(w, d, x, e);
      DistFirstLast(w, d, x);
      DistLastChar(w, x, e);
    }
  }

  // The same for the first string.
  lemma {:induction false} DistFirstLast(w: string, d: char, b: string)
    ensures Dist(w + [d], b) <= Dist(w, b) + 1
    ensures Dist(w, b) <= Dist(w + [d], b) + 1
    decreases |w| + |b|
  {
    if b == "" {
    } else {
      Unsnoc(b);
      var x, e := b[..|b| - 1], b[|b| - 1];
      DistSnoc(w, d, x, e);
      DistLastChar(w, x, e);
      DistFirstLast(w, d, x);
    }
  }

  // The shortcut loses nothing: the table cell is the least over all three neighbours
  // even when the last characters agree.
  lemma {:induction false} DiagonalIsOptimal(a: string, b: string)
    requires a != "" && b != ""
    ensures var (w, x) := (a[..|a| - 1], b[..|b| - 1]);
            Dist(a, b) == Min3(Dist(w, b) + 1, Dist(a, x) + 1, Dist(w, x) + if a[|a| - 1] == b[|b| - 1] then 0 else 1)
  {
    CornerIsClose(a, b);
  }

  lemma {:induction false} CornerIsClose(a: string, b: string)
    requires a != "" && b != ""
    ensures var (w, x) := (a[..|a| - 1], b[..|b| - 1]);
            Dist(w, x) <= Dist(w, b) + 1 && Dist(w, x) <= Dist(a, x) + 1
  {
    Unsnoc(a);
    Unsnoc(b);
    DistLastChar(a[..|a| - 1], b[..|b| - 1], b[|b| - 1]);
    DistFirstLast(a[..|a| - 1], a[|a| - 1], b[..|b| - 1]);
  }

  lemma {:induction false} DistSubstituteLast(a: string, x: string, c: char, e: char)
    ensures Dist(a, x + [c]) <= Dist(a, x + [e]) + 1
  {
    if a != "" {
      Unsnoc(a);
      var w, d := a[..|a| - 1], a[|a| - 1];
      DistSnoc(w, d, x, c);
      DistSnoc(w, d, x, e);
      DistLastChar(w, x, e);
      DistFirstLast(w, d, x);
    }
  }

  lemma {:induction false} InsertInit(s: string, t: string, i: nat)
    requires s != "" && InsertsAt(s, t, i)
    ensures s == t[..|t| - 1] || (s[|s| - 1] == t[|t| - 1] && InsertsAt(s[..|s| - 1], t[..|t| - 1], i))
  {
    if i == |t| - 1 {
      assert s == t[..|t| - 1];
    } else {
      var s', t' := s[..|s| - 1], t[..|t| - 1];
      assert s' == t'[..i] + t'[i + 1..];
    }
  }

  lemma {:induction false} SubstituteInit(s: string, t: string, i: nat)
    requires SubstitutesAt(s, t, i)
    ensures s[..|s| - 1] == t[..|t| - 1] || (s[|s| - 1] == t[|t| - 1] && SubstitutesAt(s[..|s| - 1], t[..|t| - 1], i))
  {
    var s', t' := s[..|s| - 1], t[..|t| - 1];
    if i == |s| - 1 {
      assert s' == t';
    } else {
      assert t' == s'[i := t'[i]];
    }
  }

  // An edit strictly before the last character is an edit of the rest.
  lemma {:induction false} OneEditInit(s: string, t: string)
    requires OneEdit(s, t)
    ensures || (s != "" && t == s[..|s| - 1])
            || (t != "" && s == t[..|t| - 1])
            || (s != "" && t != "" && s[..|s| - 1] == t[..|t| - 1])
            || (s != "" && t != "" && s[|s| - 1] == t[|t| - 1] && OneEdit(s[..|s| - 1], t[..|t| - 1]))
  {
    var i: nat :| InsertsAt(s, t, i) || InsertsAt(t, s, i) || SubstitutesAt(s, t, i);
    if s == "" {
      assert t[..|t| - 1] == s;
    } else if t == "" {
      assert s[..|s| - 1] == t;
    } else if InsertsAt(s, t, i) {
      InsertInit(s, t, i);
    } else if InsertsAt(t, s, i) {
      InsertInit(t, s, i);
    } else {
      SubstituteInit(s, t, i);
    }
  }

  lemma {:induction false} EditBeforeLast(w: string, d: char, x: string, y: string, e: char)
    requires Dist(w, y) <= Dist(w, x) + 1 && Dist(w + [d], y) <= Dist(w + [d], x) + 1
    requires Dist(w, y + [e]) <= Dist(w, x + [e]) + 1
    ensures Dist(w + [d], y + [e]) <= Dist(w + [d], x + [e]) + 1
  {
    DistSnoc(w, d, x, e);
    DistSnoc(w, d, y, e);
  }

  // One edit anywhere changes the recurrence by at most one.
  lemma {:induction false} DistOneEdit(a: string, s: string, t: string)
    requires OneEdit(s, t)
    ensures Dist(a, t) <= Dist(a, s) + 1
    decreases |a| + |s| + |t|
  {
    OneEditInit(s, t);
    if s != "" && t == s[..|s| - 1] {
      Unsnoc(s);
      DistLastChar(a, t, s[|s| - 1]);
    } else if t != "" && s == t[..|t| - 1] {
      Unsnoc(t);
      DistLastChar(a, s, t[|t| - 1]);
    } else {
      var x, y, e, f := s[..|s| - 1], t[..|t| - 1], s[|s| - 1], t[|t| - 1];
      Unsnoc(s);
      Unsnoc(t);
      if x == y {
        DistSubstituteLast(a, x, f, e);
      } else if a == "" {
      } else {
        Unsnoc(a);
        var w, d := a[..|a| - 1], a[|a| - 1];
        DistOneEdit(w, x, y);
        DistOneEdit(a, x, y);
        DistOneEdit(w, s, t);
        EditBeforeLast(w, d, x, y, e);
      }
    }
  }

  // No chain of edits beats the recurrence.
  lemma {:induction false} PathAtLeastDist(p: seq<string>, a: string, b: string)
    requires EditPath(p, a, b)
    ensures |p| >= Dist(a, b) + 1
    decreases |p|
  {
    if |p| == 1 {
      DistSelf(a);
    } else {
      var q := p[..|p| - 1];
      PathAtLeastDist(q, a, q[|q| - 1]);
      assert OneEdit(p[|p| - 2], p[|p| - 1]);
      DistOneEdit(a, q[|q| - 1], b);
    }
  }

  // ----- A chain of exactly that length -----

  function Extend(p: seq<string>, c: char): (r: seq<string>)
    ensures |r| == |p|
    ensures forall k :: 0 <= k < |p| ==> r[k] == p[k] + [c]
  {
    seq(|p|, k requires 0 <= k < |p| => p[k] + [c])
  }

  lemma {:induction false} OneEditExtend(s: string, t: string, c: char)
    requires OneEdit(s, t)
    ensures OneEdit(s + [c], t + [c])
  {
    var i: nat :| InsertsAt(s, t, i) || InsertsAt(t, s, i) || SubstitutesAt(s, t, i);
    if InsertsAt(s, t, i) {
      InsertExtend(s, t, i, c);
    } else if InsertsAt(t, s, i) {
      InsertExtend(t, s, i, c);
    } else {
      SubstituteExtend(s, t, i, c);
    }
  }

  lemma {:induction false} InsertExtend(s: string, t: string, i: nat, c: char)
    requires InsertsAt(s, t, i)
    ensures InsertsAt(s + [c], t + [c], i)
  {
    var v := t + [c];
    assert v[..i] == t[..i] && v[i + 1..] == t[i + 1..] + [c];
  }

  lemma {:induction false} SubstituteExtend(s: string, t: string, i: nat, c: char)
    requires SubstitutesAt(s, t, i)
    ensures SubstitutesAt(s + [c], t + [c], i)
  {
    assert t + [c] == (s + [c])[i := (t + [c])[i]];
  }

  lemma ExtendPath(p: seq<string>, a: string, b: string, c: char)
    requires EditPath(p, a, b)
    ensures EditPath(Extend(p, c), a + [c], b + [c])
  {
    forall k | 0 <= k < |p| - 1 ensures OneEdit(Extend(p, c)[k], Extend(p, c)[k + 1]) {
      OneEditExtend(p[k], p[k + 1], c);
    }
  }

  lemma JoinPaths(p: seq<string>, q: seq<string>, a: string, b: string, c: string)
    requires EditPath(p, a, b) && EditPath(q, b, c)
    ensures EditPath(p + q[1..], a, c) && |p + q[1..]| == |p| + |q| - 1
  {
    var r := p + q[1..];
    forall k | 0 <= k < |r| - 1 ensures OneEdit(r[k], r[k + 1]) {
      if k >= |p| - 1 { assert r[k] == q[k - |p| + 1] && r[k + 1] == q[k - |p| + 2]; }
    }
  }

  lemma DropLast(w: string, d: char)
    ensures OneEdit(w + [d], w) && OneEdit(w, w + [d])
  {
    var s := w + [d];
    assert s[..|w|] + s[|w| + 1..] == w;
    assert InsertsAt(w, s, |w|);
  }

  lemma ReplaceLast(w: string, d: char, e: char)
    ensures OneEdit(w + [d], w + [e])
  {
    assert (w + [e]) == (w + [d])[|w| := e];
    assert SubstitutesAt(w + [d], w + [e], |w|);
  }

  lemma PrependEdit(a: string, p: seq<string>, w: string, b: string)
    requires EditPath(p, w, b) && OneEdit(a, w)
    ensures EditPath([a] + p, a, b)
  {
    var r := [a] + p;
    forall k | 0 <= k < |r| - 1 ensures OneEdit(r[k], r[k + 1]) {
      if k > 0 { assert r[k] == p[k - 1] && r[k + 1] == p[k]; }
    }
  }

  lemma AppendEdit(p: seq<string>, a: string, x: string, b: string)
    requires EditPath(p, a, x) && OneEdit(x, b)
    ensures EditPath(p + [b], a, b)
  {
    var r := p + [b];
    forall k | 0 <= k < |r| - 1 ensures OneEdit(r[k], r[k + 1]) {
      if k < |p| - 1 { assert r[k] == p[k] && r[k + 1] == p[k + 1]; }
    }
  }

  lemma {:induction false} PathOfDist(a: string, b: string) returns (p: seq<string>)
    ensures EditPath(p, a, b) && |p| == Dist(a, b) + 1
    decreases |a| + |b|
  {
    if a == "" && b == "" {
      p := [""];
    } else if a == "" {
      Unsnoc(b);
      var x, e := b[..|b| - 1], b[|b| - 1];
      var q := PathOfDist(a, x);
      DropLast(x, e);
      AppendEdit(q, a, x, b);
      p := q + [b];
    } else if b == "" {
      Unsnoc(a);
      var w, d := a[..|a| - 1], a[|a| - 1];
      var q := PathOfDist(w, b);
      DropLast(w, d);
      PrependEdit(a, q, w, b);
      p := [a] + q;
    } else {
      Unsnoc(a);
      Unsnoc(b);
      var w, d, x, e := a[..|a| - 1], a[|a| - 1], b[..|b| - 1], b[|b| - 1];
      DistSnoc(w, d, x, e);
      if d == e {
        var q := PathOfDist(w, x);
        ExtendPath(q, w, x, d);
        p := Extend(q, d);
      } else if Dist(a, b) == 1 + Dist(w, b) {
        var q := PathOfDist(w, b);
        DropLast(w, d);
        PrependEdit(a, q, w, b);
        p := [a] + q;
      } else if Dist(a, b) == 1 + Dist(a, x) {
        var q := PathOfDist(a, x);
        DropLast(x, e);
        AppendEdit(q, a, x, b);
        p := q + [b];
      } else {
        var q := PathOfDist(w, x);
        ExtendPath(q, w, x, e);
        ReplaceLast(w, d, e);
        PrependEdit(a, Extend(q, e), w + [e], b);
        p := [a] + Extend(q, e);
      }
    }
  }

  // The recurrence is the edit distance, for all strings.
  lemma DistIsEditDistance(a: string, b: string)
    ensures IsEditDistance(a, b, Dist(a, b))
  {
    var p := PathOfDist(a, b);
    forall q | EditPath(q, a, b) ensures |q| >= Dist(a, b) + 1 {
      PathAtLeastDist(q, a, b);
    }
  }

  lemma EditDistanceUnique(a: string, b: string, m: nat, n: nat)
    requires IsEditDistance(a, b, m) && IsEditDistance(a, b, n)
    ensures m == n
  {
    var p :| EditPath(p, a, b) && |p| == m + 1;
    var q :| EditPath(q, a, b) && |q| == n + 1;
  }

  // ----- It is a metric -----

  lemma EditDistanceMetric(a: string, b: string, c: string, ab: nat, ba: nat, bc: nat, ac: nat)
    requires IsEditDistance(a, b, ab) && IsEditDistance(b, a, ba)
    requires IsEditDistance(b, c, bc) && IsEditDistance(a, c, ac)
    ensures ab == ba
    ensures ab == 0 <==> a == b
    ensures ac <= ab + bc
  {
    DistIsEditDistance(a, b);
    DistIsEditDistance(b, a);
    EditDistanceUnique(a, b, ab, Dist(a, b));
    EditDistanceUnique(b, a, ba, Dist(b, a));
    DistSymmetric(a, b);
    var p :| EditPath(p, a, b) && |p| == ab + 1;
    var q :| EditPath(q, b, c) && |q| == bc + 1;
    JoinPaths(p, q, a, b, c);
    if a == b {
      assert EditPath([a], a, b);
    }
  }

  // ----- The two-row loop -----

  // The table cell of two prefixes.
  function Cell(a: string, b: string, i: nat, j: nat): nat
    requires i <= |a| && j <= |b|
  {
    Dist(a[..i], b[..j])
  }

  lemma CellStep(a: string, b: string, i: nat, j: nat)
    requires 1 <= i <= |a| && 1 <= j <= |b|
    ensures Cell(a, b, i, j) ==
            if a[i - 1] == b[j - 1] then Cell(a, b, i - 1, j - 1)
            else 1 + Min3(Cell(a, b, i - 1, j), Cell(a, b, i, j - 1), Cell(a, b, i - 1, j - 1))
  {
    assert a[..i] == a[..i - 1] + [a[i - 1]] && b[..j] == b[..j - 1] + [b[j - 1]];
    DistSnoc(a[..i - 1], a[i - 1], b[..j - 1], b[j - 1]);
  }

  lemma WholeCell(a: string, b: string, d: nat)
    requires d == Cell(a, b, |a|, |b|)
    ensures IsEditDistance(a, b, d) && IsEditDistance(b, a, d)
  {
    assert a[..|a|] == a && b[..|b|] == b;
    DistSymmetric(a, b);
    DistIsEditDistance(a, b);
    DistIsEditDistance(b, a);
  }

  method Levenshtein(a0: string, b0: string) returns (d: nat)
    ensures IsEditDistance(a0, b0, d)
  {
    var a, b, m, n := a0, b0, |a0|, |b0|;
    if m < n {
      a, b, m, n := b, a, n, m;
    }
    var prev := new nat[n + 1](j => j);
    var curr := new nat[n + 1](_ => 0);
    for i := 1 to m + 1
      invariant fresh(prev) && fresh(curr) && prev != curr && prev.Length == n + 1 && curr.Length == n + 1
      invariant forall j :: 0 <= j <= n ==> prev[j] == Cell(a, b, i - 1, j)
    {
      curr[0] := i;
      for j := 1 to n + 1
        invariant forall k :: 0 <= k <= n ==> prev[k] == Cell(a, b, i - 1, k)
        invariant forall k :: 0 <= k < j ==> curr[k] == Cell(a, b, i, k)
      {
        CellStep(a, b, i, j);
        if a[i - 1] == b[j - 1] {
          curr[j] := prev[j - 1];
        } else {
          curr[j] := 1 + Min3(prev[j], curr[j - 1], prev[j - 1]);
        }
      }
      prev, curr := curr, prev;
    }
    d := prev[n];
    WholeCell(a, b, d);
  }
}
