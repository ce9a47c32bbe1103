/** src/apps/approval-ui/diff-lines.ts: the line diff shown on the approval screen. */
module Diff {

  // ---------------------------------------------------------------- lines

  // s.split("\n")
  function Split(s: string): (r: seq<string>)
    ensures |r| >= 1
  {
    if s == "" then [""]
    else if s[0] == '\n' then [""] + Split(s[1..])
    else
      var rest := Split(s[1..]);
      [[s[0]] + rest[0]] + rest[1..]
  }

  function Join(lines: seq<string>): string {
    if lines == [] then ""
    else if |lines| == 1 then lines[0]
    else lines[0] + "\n" + Join(lines[1..])
  }

  lemma {:induction false} JoinSplit(s: string)
    ensures Join(Split(s)) == s
    ensures forall i | 0 <= i < |Split(s)| :: '\n' !in Split(s)[i]
  {
    if s != "" {
      JoinSplit(s[1..]);
      var rest := Split(s[1..]);
      if s[0] == '\n' {
        assert ([""] + rest)[1..] == rest;
      } else if |rest| > 1 {
        assert ([[s[0]] + rest[0]] + rest[1..])[1..] == rest[1..];
      }
    }
  }

  // ---------------------------------------------------------------- scripts

  datatype DiffLine = Same(text: string) | Added(text: string) | Removed(text: string)

  function Before(script: seq<DiffLine>): seq<string> {
    if script == [] then []
    else (if script[0].Added? then [] else [script[0].text]) + Before(script[1..])
  }

  function After(script: seq<DiffLine>): seq<string> {
    if script == [] then []
    else (if script[0].Removed? then [] else [script[0].text]) + After(script[1..])
  }

  function Kept(script: seq<DiffLine>): seq<string> {
    if script == [] then []
    else (if script[0].Same? then [script[0].text] else []) + Kept(script[1..])
  }

  // the number of insertions and deletions
  function Edits(script: seq<DiffLine>): nat {
    if script == [] then 0 else (if script[0].Same? then 0 else 1) + Edits(script[1..])
  }

  // ---------------------------------------------------------------- common subsequences

  ghost predicate Subsequence(c: seq<string>, s: seq<string>) {
    c == [] || (s != [] && ((c[0] == s[0] && Subsequence(c[1..], s[1..])) || Subsequence(c, s[1..])))
  }

  function Max(a: nat, b: nat): nat {
    if a >= b then a else b
  }

  function LcsLength(a: seq<string>, b: seq<string>): nat
    decreases |a| + |b|
  {
    if a == [] || b == [] then 0
    else if a[0] == b[0] then LcsLength(a[1..], b[1..]) + 1
    else Max(LcsLength(a[1..], b), LcsLength(a, b[1..]))
  }

  lemma {:induction false} SubsequenceSkips(c: seq<string>, s: seq<string>)
    requires c != [] && Subsequence(c, s)
    ensures Subsequence(c[1..], s)
    ensures s != [] && Subsequence(c[1..], s[1..])
    decreases |s|
  {
    if !(c[0] == s[0] && Subsequence(c[1..], s[1..])) {
      SubsequenceSkips(c, s[1..]);
    }
  }

  lemma {:induction false} DroppingOneLine(a: seq<string>, b: seq<string>)
    ensures a != [] ==> LcsLength(a, b) <= LcsLength(a[1..], b) + 1
    ensures b != [] ==> LcsLength(a, b) <= LcsLength(a, b[1..]) + 1
    ensures a != [] ==> LcsLength(a[1..], b) <= LcsLength(a, b)
    ensures b != [] ==> LcsLength(a, b[1..]) <= LcsLength(a, b)
    decreases |a| + |b|
  {
    if a != [] && b != [] {
      DroppingOneLine(a[1..], b);
      DroppingOneLine(a, b[1..]);
      DroppingOneLine(a[1..], b[1..]);
    }
  }

  /** No common subsequence of the two texts is longer than the table's first entry. */
  lemma {:induction false} LcsIsLongest(c: seq<string>, a: seq<string>, b: seq<string>)
    requires Subsequence(c, a) && Subsequence(c, b)
    ensures |c| <= LcsLength(a, b)
    decreases |a| + |b|
  {
    if c != [] {
      if a[0] == b[0] {
        SubsequenceSkips(c, a);
        SubsequenceSkips(c, b);
        LcsIsLongest(c[1..], a[1..], b[1..]);
      } else if c[0] == a[0] {
        LcsIsLongest(c, a, b[1..]);
      } else {
        LcsIsLongest(c, a[1..], b);
      }
    }
  }

  // ---------------------------------------------------------------- the greedy walk

  // What the walk emits from the two suffixes on: a removal wherever removing and adding tie.
  function Walk(a: seq<string>, b: seq<string>): seq<DiffLine>
    decreases |a| + |b|
  {
    if a == [] && b == [] then []
    else if b == [] then [Removed(a[0])] + Walk(a[1..], b)
    else if a == [] then [Added(b[0])] + Walk(a, b[1..])
    else if a[0] == b[0] then [Same(a[0])] + Walk(a[1..], b[1..])
    else if LcsLength(a[1..], b) >= LcsLength(a, b[1..]) then [Removed(a[0])] + Walk(a[1..], b)
    else [Added(b[0])] + Walk(a, b[1..])
  }

  lemma {:induction false} WalkRebuilds(a: seq<string>, b: seq<string>)
    ensures Before(Walk(a, b)) == a && After(Walk(a, b)) == b
    ensures |Kept(Walk(a, b))| == LcsLength(a, b)
    decreases |a| + |b|
  {
    if a == [] && b == [] {
    } else if b == [] || (a != [] && a[0] != b[0] && LcsLength(a[1..], b) >= LcsLength(a, b[1..])) {
      WalkRebuilds(a[1..], b);
      assert Walk(a, b)[1..] == Walk(a[1..], b);
    } else if a == [] || a[0] != b[0] {
      WalkRebuilds(a, b[1..]);
      assert Walk(a, b)[1..] == Walk(a, b[1..]);
    } else {
      WalkRebuilds(a[1..], b[1..]);
      assert Walk(a, b)[1..] == Walk(a[1..], b[1..]);
    }
  }

  lemma {:induction false} KeptIsCommon(script: seq<DiffLine>)
    ensures Subsequence(Kept(script), Before(script)) && Subsequence(Kept(script), After(script))
    ensures Edits(script) + 2 * |Kept(script)| == |Before(script)| + |After(script)|
  {
    if script != [] {
      var rest := script[1..];
      KeptIsCommon(rest);
      if script[0].Same? {
        assert Kept(script)[1..] == Kept(rest);
        assert Before(script)[1..] == Before(rest) && After(script)[1..] == After(rest);
      } else {
        assert Kept(script) == Kept(rest);
        if script[0].Removed? {
          assert Before(script)[1..] == Before(rest) && After(script) == After(rest);
        } else {
          assert After(script)[1..] == After(rest) && Before(script) == Before(rest);
        }
      }
    }
  }

  /** The walk's script rebuilds both texts, keeps as many lines as any common subsequence can,
      and no script between the two texts has fewer insertions and deletions. */
  lemma WalkIsOptimal(a: seq<string>, b: seq<string>, other: seq<DiffLine>)
    requires Before(other) == a && After(other) == b
    ensures Before(Walk(a, b)) == a && After(Walk(a, b)) == b
    ensures |Kept(other)| <= |Kept(Walk(a, b))|
    ensures Edits(Walk(a, b)) <= Edits(other)
  {
    WalkRebuilds(a, b);
    KeptIsCommon(Walk(a, b));
    KeptIsCommon(other);
    LcsIsLongest(Kept(other), a, b);
  }

  // What entry k of a script must be where the entries before it end: a kept line if the next lines are equal,
  // otherwise the removal unless adding first leaves strictly more lines to keep.
  ghost predicate RightAt(script: seq<DiffLine>, a: seq<string>, b: seq<string>, k: nat)
    requires k < |script|
  {
    var i, j := |Before(script[..k])|, |After(script[..k])|;
    && i <= |a| && j <= |b|
    && match script[k]
       case Same(text) => i < |a| && j < |b| && a[i] == b[j] == text
       case Removed(text) =>
         && i < |a| && a[i] == text
         && (j < |b| ==> a[i] != b[j] && LcsLength(a[i + 1..], b[j..]) >= LcsLength(a[i..], b[j + 1..]))
       case Added(text) =>
         && j < |b| && b[j] == text
         && (i < |a| ==> a[i] != b[j] && LcsLength(a[i + 1..], b[j..]) < LcsLength(a[i..], b[j + 1..]))
  }

  lemma RightLater(head: DiffLine, rest: seq<DiffLine>, a: seq<string>, b: seq<string>, k: nat)
    requires k < |rest|
    requires !head.Added? ==> a != []
    requires !head.Removed? ==> b != []
    requires RightAt(rest, if head.Added? then a else a[1..], if head.Removed? then b else b[1..], k)
    ensures RightAt([head] + rest, a, b, k + 1)
  {
    var done := ([head] + rest)[..k + 1];
    assert done[1..] == rest[..k];
    var i, j := |Before(rest[..k])|, |After(rest[..k])|;
    assert |Before(done)| == i + if head.Added? then 0 else 1;
    assert |After(done)| == j + if head.Removed? then 0 else 1;
    hide LcsLength;
    if !head.Added? {
      assert a[1..][i..] == a[i + 1..];
      if i + 1 < |a| { assert a[1..][i + 1..] == a[i + 2..]; }
    }
    if !head.Removed? {
      assert b[1..][j..] == b[j + 1..];
      if j + 1 < |b| { assert b[1..][j + 1..] == b[j + 2..]; }
    }
  }

  lemma RightAtStart(a: seq<string>, b: seq<string>)
    requires a != [] || b != []
    ensures RightAt(Walk(a, b), a, b, 0)
  {
    assert Walk(a, b)[..0] == [];
    assert a[0..] == a && b[0..] == b;
    hide LcsLength;
  }

  /** Where removing and adding tie the removal comes first, and the addition only where it keeps more lines. */
  lemma {:induction false} WalkIsRight(a: seq<string>, b: seq<string>, k: nat)
    requires k < |Walk(a, b)|
    ensures RightAt(Walk(a, b), a, b, k)
    decreases |a| + |b|
  {
    hide LcsLength, RightAt;
    if k == 0 {
      RightAtStart(a, b);
    } else {
      var head, rest := Walk(a, b)[0], Walk(a, b)[1..];
      var a', b' := if head.Added? then a else a[1..], if head.Removed? then b else b[1..];
      assert rest == Walk(a', b');
      WalkIsRight(a', b', k - 1);
      RightLater(head, rest, a, b, k - 1);
      assert Walk(a, b) == [head] + rest;
    }
  }

  // ---------------------------------------------------------------- the program

  ghost predicate TableShape(lcs: array2<nat>, a: seq<string>, b: seq<string>) {
    lcs.Length0 == |a| + 1 && lcs.Length1 == |b| + 1
  }

  // the table is filled below row i, and in row i from column j on
  ghost predicate Filled(lcs: array2<nat>, a: seq<string>, b: seq<string>, i: nat, j: nat)
    requires TableShape(lcs, a, b)
    reads lcs
  {
    forall k, l | 0 <= k <= |a| && 0 <= l <= |b| && (k > i || (k == i && l >= j)) ::
      lcs[k, l] == LcsLength(a[k..], b[l..])
  }

  method FillTable(a: seq<string>, b: seq<string>) returns (lcs: array2<nat>)
    ensures fresh(lcs) && TableShape(lcs, a, b) && Filled(lcs, a, b, 0, 0)
  {
    var n, m := |a|, |b|;
    lcs := new nat[n + 1, m + 1]((_, _) => 0);
    var i := n;
    while i > 0
      invariant 0 <= i <= n
      invariant Filled(lcs, a, b, i, 0)
      invariant forall k, l | 0 <= k < i && 0 <= l <= m :: lcs[k, l] == 0
    {
      i := i - 1;
      var j := m;
      while j > 0
        invariant 0 <= j <= m
        invariant Filled(lcs, a, b, i, j)
        invariant forall k, l | 0 <= k <= i && 0 <= l <= m && (k < i || l < j) :: lcs[k, l] == 0
      {
        j := j - 1;
        TableEntry(a, b, i, j);
        lcs[i, j] := if a[i] == b[j] then lcs[i + 1, j + 1] + 1 else Max(lcs[i + 1, j], lcs[i, j + 1]);
      }
    }
  }

  lemma TableEntry(a: seq<string>, b: seq<string>, i: nat, j: nat)
    requires i < |a| && j < |b|
    ensures LcsLength(a[i..], b[j..])
         == if a[i] == b[j] then LcsLength(a[i + 1..], b[j + 1..]) + 1
            else Max(LcsLength(a[i + 1..], b[j..]), LcsLength(a[i..], b[j + 1..]))
  {
    assert a[i..][1..] == a[i + 1..] && b[j..][1..] == b[j + 1..];
  }

  /** diffLines: the texts rebuilt from the script, and the script itself. */
  method DiffLines(before: string, after: string) returns (result: seq<DiffLine>)
    ensures result == Walk(Split(before), Split(after))
    ensures Join(Before(result)) == before && Join(After(result)) == after
    ensures |Kept(result)| == LcsLength(Split(before), Split(after))
    ensures forall k | 0 <= k < |result| :: RightAt(result, Split(before), Split(after), k)
  {
    var a, b := Split(before), Split(after);
    var lcs := FillTable(a, b);
    result := WalkTable(lcs, a, b);
    WalkRebuilds(a, b);
    JoinSplit(before);
    JoinSplit(after);
    forall k | 0 <= k < |result| ensures RightAt(result, a, b, k) {
      WalkIsRight(a, b, k);
    }
  }

  method WalkTable(lcs: array2<nat>, a: seq<string>, b: seq<string>) returns (result: seq<DiffLine>)
    requires TableShape(lcs, a, b) && Filled(lcs, a, b, 0, 0)
    ensures result == Walk(a, b)
  {
    var n, m := |a|, |b|;
    result := [];
    var i, j := 0, 0;
    while i < n && j < m
      invariant 0 <= i <= n && 0 <= j <= m
      invariant Emitted(result, a, b, i, j)
      decreases n + m - i - j
    {
      WalkStep(result, a, b, i, j);
      assert lcs[i + 1, j] == LcsLength(a[i + 1..], b[j..]) && lcs[i, j + 1] == LcsLength(a[i..], b[j + 1..]);
      if a[i] == b[j] {
        result := result + [Same(a[i])];
        i, j := i + 1, j + 1;
      } else if lcs[i + 1, j] >= lcs[i, j + 1] {
        result := result + [Removed(a[i])];
        i := i + 1;
      } else {
        result := result + [Added(b[j])];
        j := j + 1;
      }
    }
    while i < n
      invariant 0 <= i <= n && 0 <= j <= m && (i == n || j == m)
      invariant Emitted(result, a, b, i, j)
    {
      WalkStep(result, a, b, i, j);
      result := result + [Removed(a[i])];
      i := i + 1;
    }
    while j < m
      invariant i == n && 0 <= j <= m
      invariant Emitted(result, a, b, i, j)
    {
      WalkStep(result, a, b, i, j);
      result := result + [Added(b[j])];
      j := j + 1;
    }
  }

  // what has been emitted is the walk up to the two cursors
  ghost predicate Emitted(result: seq<DiffLine>, a: seq<string>, b: seq<string>, i: nat, j: nat)
    requires i <= |a| && j <= |b|
  {
    result + Walk(a[i..], b[j..]) == Walk(a, b)
  }

  lemma WalkStep(result: seq<DiffLine>, a: seq<string>, b: seq<string>, i: nat, j: nat)
    requires i <= |a| && j <= |b| && (i < |a| || j < |b|)
    requires Emitted(result, a, b, i, j)
    ensures if j == |b| then Emitted(result + [Removed(a[i])], a, b, i + 1, j)
            else if i == |a| then Emitted(result + [Added(b[j])], a, b, i, j + 1)
            else if a[i] == b[j] then Emitted(result + [Same(a[i])], a, b, i + 1, j + 1)
            else if LcsLength(a[i + 1..], b[j..]) >= LcsLength(a[i..], b[j + 1..]) then
              Emitted(result + [Removed(a[i])], a, b, i + 1, j)
            else Emitted(result + [Added(b[j])], a, b, i, j + 1)
  {
    var walk := Walk(a[i..], b[j..]);
    if i < |a| { assert a[i..][1..] == a[i + 1..]; }
    if j < |b| { assert b[j..][1..] == b[j + 1..]; }
    assert walk == [walk[0]] + walk[1..];
    assert result + walk == (result + [walk[0]]) + walk[1..];
  }
}
