/** The line diff of `ui/src/shared/utils/computeLineDiff.ts`: an LCS table filled row by row, then a
    backtracking loop that emits the edit script. Scripts are judged against declarative notions
    (subsequence embeddings, the two sides of a script), never against the table. */
module LineDiff {

  // ---------------------------------------------------------------- lines of a text

  /** `text.split('\n')`: always at least one line. */
  function Lines(text: string): (lines: seq<string>)
    ensures |lines| > 0
  {
    if text == "" then [""]
    else
      var rest := Lines(text[1..]);
      if text[0] == '\n' then [""] + rest else [[text[0]] + rest[0]] + rest[1..]
  }

  /** `lines.join('\n')`. */
  function Unlines(lines: seq<string>): string
    requires |lines| > 0
  {
    if |lines| == 1 then lines[0] else lines[0] + "\n" + Unlines(lines[1..])
  }

  lemma {:induction false} UnlinesLines(text: string)
    ensures Unlines(Lines(text)) == text
  {
    if text != "" {
      UnlinesLines(text[1..]);
      var rest := Lines(text[1..]);
      if text[0] == '\n' {
        assert ([""] + rest)[1..] == rest;
      } else {
        var lines := [[text[0]] + rest[0]] + rest[1..];
        assert lines[1..] == rest[1..];
        if |rest| > 1 {
          assert Unlines(lines) == [text[0]] + (rest[0] + "\n" + Unlines(rest[1..]));
        }
      }
      assert text == [text[0]] + text[1..];
    }
  }

  lemma {:induction false} LinesUnlines(lines: seq<string>)
    requires |lines| > 0 && forall k | 0 <= k < |lines| :: '\n' !in lines[k]
    ensures Lines(Unlines(lines)) == lines
    decreases |lines|, |lines[0]|
  {
    if lines[0] == "" {
      if |lines| > 1 {
        assert Unlines(lines) == "\n" + Unlines(lines[1..]);
        assert Unlines(lines)[1..] == Unlines(lines[1..]);
        LinesUnlines(lines[1..]);
      }
    } else {
      var first, tail := lines[0], lines[1..];
      var shorter := [first[1..]] + tail;
      assert shorter[1..] == tail;
      assert Unlines(lines) == [first[0]] + Unlines(shorter);
      LinesUnlines(shorter);
      assert Lines(Unlines(lines)) == [[first[0]] + shorter[0]] + shorter[1..];
      assert [first[0]] + shorter[0] == first;
    }
  }

  // ---------------------------------------------------------------- common subsequences

  /** `f` places the elements of `c`, in order, at increasing positions below `bound` in `a`. */
  ghost predicate Embeds<T>(c: seq<T>, a: seq<T>, bound: nat, f: seq<nat>) {
    && bound <= |a| && |f| == |c|
    && (forall k | 0 <= k < |c| :: f[k] < bound && a[f[k]] == c[k])
    && (forall k, l | 0 <= k < l < |f| :: f[k] < f[l])
  }

  ghost predicate IsSubsequence<T(!new)>(c: seq<T>, a: seq<T>) {
    exists f :: Embeds(c, a, |a|, f)
  }

  ghost predicate IsCommonSubsequence<T(!new)>(c: seq<T>, a: seq<T>, b: seq<T>) {
    IsSubsequence(c, a) && IsSubsequence(c, b)
  }

  /** The recurrence behind table cell `dp[i][j]`. */
  function LcsLength<T(==)>(a: seq<T>, b: seq<T>, i: nat, j: nat): nat
    requires i <= |a| && j <= |b|
    decreases i + j
  {
    if i == 0 || j == 0 then 0
    else if a[i - 1] == b[j - 1] then LcsLength(a, b, i - 1, j - 1) + 1
    else Max(LcsLength(a, b, i - 1, j), LcsLength(a, b, i, j - 1))
  }

  function Max(x: nat, y: nat): nat { if x < y then y else x }

  /** No common subsequence of the two prefixes is longer than the table cell. */
  lemma {:induction false} LcsLengthBounds<T>(a: seq<T>, b: seq<T>, i: nat, j: nat,
                                           c: seq<T>, f: seq<nat>, g: seq<nat>)
    requires Embeds(c, a, i, f) && Embeds(c, b, j, g)
    ensures |c| <= LcsLength(a, b, i, j)
    decreases i + j
  {
    if c != [] {
      var last := |c| - 1;
      assert f[last] < i && g[last] < j;
      if a[i - 1] == b[j - 1] {
        LcsLengthBounds(a, b, i - 1, j - 1, c[..last], f[..last], g[..last]);
      } else if f[last] < i - 1 {
        LcsLengthBounds(a, b, i - 1, j, c, f, g);
      } else {
        LcsLengthBounds(a, b, i, j - 1, c, f, g);
      }
    }
  }

  // ---------------------------------------------------------------- edit scripts

  datatype Kind = Equal | Added | Removed
  datatype DiffEntry<T> = DiffEntry(kind: Kind, text: T)

  /** The lines a script reads: its equal and removed entries. */
  function OldSide<T>(script: seq<DiffEntry<T>>): seq<T> {
    if script == [] then []
    else
      var front, e := script[..|script| - 1], script[|script| - 1];
      if e.kind == Added then OldSide(front) else OldSide(front) + [e.text]
  }

  /** The lines a script writes: its equal and added entries. */
  function NewSide<T>(script: seq<DiffEntry<T>>): seq<T> {
    if script == [] then []
    else
      var front, e := script[..|script| - 1], script[|script| - 1];
      if e.kind == Removed then NewSide(front) else NewSide(front) + [e.text]
  }

  /** The texts of the equal entries. */
  function Kept<T>(script: seq<DiffEntry<T>>): seq<T> {
    if script == [] then []
    else
      var front, e := script[..|script| - 1], script[|script| - 1];
      if e.kind == Equal then Kept(front) + [e.text] else Kept(front)
  }

  /** The number of added and removed entries. */
  function Changes<T>(script: seq<DiffEntry<T>>): nat {
    if script == [] then 0
    else Changes(script[..|script| - 1]) + if script[|script| - 1].kind == Equal then 0 else 1
  }

  ghost predicate Transforms<T>(script: seq<DiffEntry<T>>, a: seq<T>, b: seq<T>) {
    OldSide(script) == a && NewSide(script) == b
  }

  /** What any script keeps is a common subsequence of its two sides. */
  lemma {:induction false} KeptEmbeds<T>(script: seq<DiffEntry<T>>) returns (f: seq<nat>, g: seq<nat>)
    ensures Embeds(Kept(script), OldSide(script), |OldSide(script)|, f)
    ensures Embeds(Kept(script), NewSide(script), |NewSide(script)|, g)
  {
    f, g := [], [];
    if script != [] {
      var front, e := script[..|script| - 1], script[|script| - 1];
      f, g := KeptEmbeds(front);
      if e.kind == Equal {
        f, g := f + [|OldSide(front)|], g + [|NewSide(front)|];
      }
    }
  }

  lemma {:induction false} ChangesBalance<T>(script: seq<DiffEntry<T>>)
    ensures |OldSide(script)| + |NewSide(script)| == 2 * |Kept(script)| + Changes(script)
  {
    if script != [] { ChangesBalance(script[..|script| - 1]); }
  }

  /** Every script between two texts keeps at most the LCS and so changes at least the rest. */
  lemma AnyScriptBound<T>(script: seq<DiffEntry<T>>, a: seq<T>, b: seq<T>)
    requires Transforms(script, a, b)
    ensures |Kept(script)| <= LcsLength(a, b, |a|, |b|)
    ensures Changes(script) >= |a| + |b| - 2 * LcsLength(a, b, |a|, |b|)
  {
    var f, g := KeptEmbeds(script);
    LcsLengthBounds(a, b, |a|, |b|, Kept(script), f, g);
    ChangesBalance(script);
  }

  // ---------------------------------------------------------------- the script the loop emits

  /** The branch the loop takes at cell (i, j). */
  function Choice<T(==)>(a: seq<T>, b: seq<T>, i: nat, j: nat): Kind
    requires i <= |a| && j <= |b| && (i > 0 || j > 0)
  {
    if i > 0 && j > 0 && a[i - 1] == b[j - 1] then Equal
    else if j > 0 && (i == 0 || LcsLength(a, b, i, j - 1) >= LcsLength(a, b, i - 1, j)) then Added
    else Removed
  }

  /** What backtracking from cell (i, j) emits, in reading order. */
  function Backtrack<T(==)>(a: seq<T>, b: seq<T>, i: nat, j: nat): seq<DiffEntry<T>>
    requires i <= |a| && j <= |b|
    decreases i + j
  {
    if i == 0 && j == 0 then []
    else match Choice(a, b, i, j)
      case Equal => Backtrack(a, b, i - 1, j - 1) + [DiffEntry(Equal, a[i - 1])]
      case Added => Backtrack(a, b, i, j - 1) + [DiffEntry(Added, b[j - 1])]
      case Removed => Backtrack(a, b, i - 1, j) + [DiffEntry(Removed, a[i - 1])]
  }

  /** The cell the choice leads to, and the entry it emits. */
  function Earlier<T(==)>(a: seq<T>, b: seq<T>, i: nat, j: nat): (cell: (nat, nat))
    requires i <= |a| && j <= |b| && (i > 0 || j > 0)
    ensures cell.0 <= i && cell.1 <= j && cell.0 + cell.1 < i + j
  {
    match Choice(a, b, i, j)
    case Equal => (i - 1, j - 1)
    case Added => (i, j - 1)
    case Removed => (i - 1, j)
  }

  function Emitted<T(==)>(a: seq<T>, b: seq<T>, i: nat, j: nat): DiffEntry<T>
    requires i <= |a| && j <= |b| && (i > 0 || j > 0)
  {
    DiffEntry(Choice(a, b, i, j), if Choice(a, b, i, j) == Added then b[j - 1] else a[i - 1])
  }

  lemma BacktrackStep<T>(a: seq<T>, b: seq<T>, i: nat, j: nat)
    requires i <= |a| && j <= |b| && (i > 0 || j > 0)
    ensures var cell := Earlier(a, b, i, j);
            Backtrack(a, b, i, j) == Backtrack(a, b, cell.0, cell.1) + [Emitted(a, b, i, j)]
  {
  }

  lemma AppendEntry<T>(front: seq<DiffEntry<T>>, e: DiffEntry)
    ensures var script := front + [e];
            && OldSide(script) == OldSide(front) + (if e.kind == Added then [] else [e.text])
            && NewSide(script) == NewSide(front) + (if e.kind == Removed then [] else [e.text])
            && Kept(script) == Kept(front) + (if e.kind == Equal then [e.text] else [])
  {
    assert (front + [e])[..|front|] == front;
  }

  /** The emitted script rewrites prefix to prefix ... */
  lemma {:induction false} BacktrackTransforms<T>(a: seq<T>, b: seq<T>, i: nat, j: nat)
    requires i <= |a| && j <= |b|
    ensures Transforms(Backtrack(a, b, i, j), a[..i], b[..j])
    decreases i + j
  {
    if i > 0 || j > 0 {
      assert i > 0 ==> a[..i] == a[..i - 1] + [a[i - 1]];
      assert j > 0 ==> b[..j] == b[..j - 1] + [b[j - 1]];
      match Choice(a, b, i, j)
      case Equal =>
        BacktrackTransforms(a, b, i - 1, j - 1);
        AppendEntry(Backtrack(a, b, i - 1, j - 1), DiffEntry(Equal, a[i - 1]));
      case Added =>
        BacktrackTransforms(a, b, i, j - 1);
        AppendEntry(Backtrack(a, b, i, j - 1), DiffEntry(Added, b[j - 1]));
      case Removed =>
        BacktrackTransforms(a, b, i - 1, j);
        AppendEntry(Backtrack(a, b, i - 1, j), DiffEntry(Removed, a[i - 1]));
    }
  }

  /** Each branch follows the cell the table value came from. */
  lemma ChoiceLength<T>(a: seq<T>, b: seq<T>, i: nat, j: nat)
    requires i <= |a| && j <= |b| && (i > 0 || j > 0)
    ensures var cell := Earlier(a, b, i, j);
            LcsLength(a, b, i, j) == LcsLength(a, b, cell.0, cell.1) + if Choice(a, b, i, j) == Equal then 1 else 0
  {
  }

  lemma KeptPush<T>(front: seq<DiffEntry<T>>, e: DiffEntry<T>)
    ensures |Kept(front + [e])| == |Kept(front)| + if e.kind == Equal then 1 else 0
  {
    AppendEntry(front, e);
  }

  /** ... and keeps exactly as many lines as the table says. */
  lemma {:induction false} BacktrackKeeps<T>(a: seq<T>, b: seq<T>, i: nat, j: nat)
    requires i <= |a| && j <= |b|
    ensures |Kept(Backtrack(a, b, i, j))| == LcsLength(a, b, i, j)
    decreases i + j
  {
    if i > 0 || j > 0 {
      var cell := Earlier(a, b, i, j);
      calc {
        |Kept(Backtrack(a, b, i, j))|;
        { BacktrackStep(a, b, i, j); }
        |Kept(Backtrack(a, b, cell.0, cell.1) + [Emitted(a, b, i, j)])|;
        { KeptPush(Backtrack(a, b, cell.0, cell.1), Emitted(a, b, i, j)); }
        |Kept(Backtrack(a, b, cell.0, cell.1))| + if Choice(a, b, i, j) == Equal then 1 else 0;
        { BacktrackKeeps(a, b, cell.0, cell.1); }
        LcsLength(a, b, cell.0, cell.1) + if Choice(a, b, i, j) == Equal then 1 else 0;
        { ChoiceLength(a, b, i, j); }
        LcsLength(a, b, i, j);
      }
    }
  }

  /** A table row never falls below the row above it: the script of the smaller cell is a witness. */
  lemma LcsLengthMonotone<T>(a: seq<T>, b: seq<T>, i: nat, j: nat)
    requires 0 < i <= |a| && j <= |b|
    ensures LcsLength(a, b, i - 1, j) <= LcsLength(a, b, i, j)
  {
    var script := Backtrack(a, b, i - 1, j);
    BacktrackTransforms(a, b, i - 1, j);
    BacktrackKeeps(a, b, i - 1, j);
    var f, g := KeptEmbeds(script);
    LcsLengthBounds(a, b, i, j, Kept(script), f, g);
  }

  /** Within a run of changes the removed lines come before the added ones. */
  ghost predicate RemovalsFirst<T>(script: seq<DiffEntry<T>>) {
    forall k | 0 <= k < |script| - 1 :: !(script[k].kind == Added && script[k + 1].kind == Removed)
  }

  /** The tie-break `dp[i][j-1] >= dp[i-1][j]` is what puts removals first. */
  lemma {:induction false} BacktrackRemovalsFirst<T>(a: seq<T>, b: seq<T>, i: nat, j: nat)
    requires i <= |a| && j <= |b|
    ensures RemovalsFirst(Backtrack(a, b, i, j))
    decreases i + j
  {
    if i > 0 || j > 0 {
      var cell := Earlier(a, b, i, j);
      var front := Backtrack(a, b, cell.0, cell.1);
      BacktrackStep(a, b, i, j);
      BacktrackRemovalsFirst(a, b, cell.0, cell.1);
      if Choice(a, b, i, j) == Removed && (cell.0 > 0 || cell.1 > 0) {
        BacktrackStep(a, b, cell.0, cell.1);
        NotAddedBeforeRemoved(a, b, i, j);
      }
      RemovalsFirstPush(front, Emitted(a, b, i, j));
    }
  }

  lemma NotAddedBeforeRemoved<T>(a: seq<T>, b: seq<T>, i: nat, j: nat)
    requires 1 < i + j && i <= |a| && j <= |b| && Choice(a, b, i, j) == Removed
    ensures Choice(a, b, i - 1, j) != Added
  {
    if j > 0 {
      LcsLengthMonotone(a, b, i, j - 1);
      ChoiceLength(a, b, i - 1, j);
    }
  }

  lemma RemovalsFirstPush<T>(front: seq<DiffEntry<T>>, e: DiffEntry<T>)
    requires RemovalsFirst(front)
    requires e.kind == Removed && front != [] ==> front[|front| - 1].kind != Added
    ensures RemovalsFirst(front + [e])
  {
  }

  // ---------------------------------------------------------------- which subsequence is kept

  /** Every beginning of an emitted script is itself the script of a cell, and ends with the entry of its choice. */
  lemma {:induction false} BacktrackPrefix<T>(a: seq<T>, b: seq<T>, i: nat, j: nat, k: nat) returns (cell: (nat, nat))
    requires i <= |a| && j <= |b| && k < |Backtrack(a, b, i, j)|
    ensures cell.0 <= i && cell.1 <= j && (cell.0 > 0 || cell.1 > 0)
    ensures Backtrack(a, b, i, j)[..k + 1] == Backtrack(a, b, cell.0, cell.1)
    ensures Backtrack(a, b, i, j)[k] == Emitted(a, b, cell.0, cell.1)
    decreases i + j
  {
    var script := Backtrack(a, b, i, j);
    assert i > 0 || j > 0;
    BacktrackStep(a, b, i, j);
    if k + 1 == |script| {
      assert script[..k + 1] == script;
      cell := (i, j);
    } else {
      var next := Earlier(a, b, i, j);
      assert script[..k + 1] == Backtrack(a, b, next.0, next.1)[..k + 1];
      cell := BacktrackPrefix(a, b, next.0, next.1, k);
    }
  }

  /** Where entry `k` stands: how many lines of each side the script has read with it. */
  function OldCount<T>(script: seq<DiffEntry<T>>, k: nat): nat
    requires k < |script|
  {
    |OldSide(script[..k + 1])|
  }

  function NewCount<T>(script: seq<DiffEntry<T>>, k: nat): nat
    requires k < |script|
  {
    |NewSide(script[..k + 1])|
  }

  /** The last lines read by then are the same on both sides. */
  predicate Meet<T(==)>(a: seq<T>, b: seq<T>, i: nat, j: nat) {
    0 < i <= |a| && 0 < j <= |b| && a[i - 1] == b[j - 1]
  }

  /** Entry `k` is an equal one exactly if the last lines read with it are the same on both sides. */
  predicate EqualWhereMet<T(==)>(script: seq<DiffEntry<T>>, a: seq<T>, b: seq<T>, k: nat)
    requires k < |script|
  {
    script[k].kind == Equal <==> Meet(a, b, OldCount(script, k), NewCount(script, k))
  }

  ghost predicate KeepsWherePossible<T>(script: seq<DiffEntry<T>>, a: seq<T>, b: seq<T>) {
    forall k: nat | k < |script| :: EqualWhereMet(script, a, b, k)
  }

  /** Entry `k` is a removed one only if leaving out the last line of the other side instead would keep less:
      no common subsequence of what is then left is as long as what the script keeps up to there. */
  ghost predicate RemovedOnlyIfBetter<T(!new)>(script: seq<DiffEntry<T>>, a: seq<T>, b: seq<T>, k: nat)
    requires k < |script|
  {
    var i, j := OldCount(script, k), NewCount(script, k);
    script[k].kind == Removed && i <= |a| && 0 < j <= |b| ==>
      forall c | IsCommonSubsequence(c, a[..i], b[..j - 1]) :: |c| < |Kept(script[..k + 1])|
  }

  ghost predicate RemovesOnlyIfBetter<T(!new)>(script: seq<DiffEntry<T>>, a: seq<T>, b: seq<T>) {
    forall k: nat | k < |script| :: RemovedOnlyIfBetter(script, a, b, k)
  }

  lemma BacktrackAt<T>(a: seq<T>, b: seq<T>, k: nat) returns (cell: (nat, nat))
    requires k < |Backtrack(a, b, |a|, |b|)|
    ensures var script := Backtrack(a, b, |a|, |b|);
            && cell.0 == OldCount(script, k) <= |a| && cell.1 == NewCount(script, k) <= |b| && (cell.0 > 0 || cell.1 > 0)
            && script[..k + 1] == Backtrack(a, b, cell.0, cell.1)
            && script[k] == Emitted(a, b, cell.0, cell.1)
  {
    cell := BacktrackPrefix(a, b, |a|, |b|, k);
    BacktrackTransforms(a, b, cell.0, cell.1);
  }

  lemma BacktrackEqualWhereMet<T>(a: seq<T>, b: seq<T>, k: nat)
    requires k < |Backtrack(a, b, |a|, |b|)|
    ensures EqualWhereMet(Backtrack(a, b, |a|, |b|), a, b, k)
  {
    var cell := BacktrackAt(a, b, k);
    assert Choice(a, b, cell.0, cell.1) == Equal <==> Meet(a, b, cell.0, cell.1);
  }

  lemma RemovedIsBetter<T(!new)>(a: seq<T>, b: seq<T>, i: nat, j: nat, c: seq<T>)
    requires 0 < i <= |a| && 0 < j <= |b| && Choice(a, b, i, j) == Removed
    requires IsCommonSubsequence(c, a[..i], b[..j - 1])
    ensures |c| < LcsLength(a, b, i, j)
  {
    var f :| Embeds(c, a[..i], |a[..i]|, f);
    var g :| Embeds(c, b[..j - 1], |b[..j - 1]|, g);
    LcsLengthBounds(a, b, i, j - 1, c, f, g);
    ChoiceLength(a, b, i, j);
  }

  lemma BacktrackRemovedOnlyIfBetter<T(!new)>(a: seq<T>, b: seq<T>, k: nat)
    requires k < |Backtrack(a, b, |a|, |b|)|
    ensures RemovedOnlyIfBetter(Backtrack(a, b, |a|, |b|), a, b, k)
  {
    var script := Backtrack(a, b, |a|, |b|);
    var cell := BacktrackAt(a, b, k);
    var i, j := cell.0, cell.1;
    BacktrackKeeps(a, b, i, j);
    if script[k].kind == Removed && 0 < j {
      forall c | IsCommonSubsequence(c, a[..i], b[..j - 1]) ensures |c| < |Kept(script[..k + 1])| {
        RemovedIsBetter(a, b, i, j, c);
      }
    }
  }

  /** The two texts end with the same `n` lines. */
  predicate SameEnd<T(==)>(a: seq<T>, b: seq<T>, n: nat) {
    n <= |a| && n <= |b| && a[|a| - n..] == b[|b| - n..]
  }

  lemma LastOfSameEnd<T>(a: seq<T>, b: seq<T>, i: nat, j: nat, n: nat)
    requires i <= |a| && j <= |b| && SameEnd(a[..i], b[..j], n) && n > 0
    ensures a[i - 1] == b[j - 1] && SameEnd(a[..i - 1], b[..j - 1], n - 1)
  {
    assert a[i - 1] == a[..i][i - n..][n - 1] && b[j - 1] == b[..j][j - n..][n - 1];
    assert a[..i - 1][i - n..] == a[..i][i - n..][..n - 1];
    assert b[..j - 1][j - n..] == b[..j][j - n..][..n - 1];
  }

  /** The lines both texts end with are kept, at the end of the script. */
  lemma {:induction false} BacktrackKeepsEnd<T>(a: seq<T>, b: seq<T>, i: nat, j: nat, n: nat)
    requires i <= |a| && j <= |b| && SameEnd(a[..i], b[..j], n)
    ensures EqualEnd(Backtrack(a, b, i, j), n)
  {
    if n > 0 {
      LastOfSameEnd(a, b, i, j, n);
      BacktrackStep(a, b, i, j);
      BacktrackKeepsEnd(a, b, i - 1, j - 1, n - 1);
    }
  }

  ghost predicate KeepsEnd<T>(script: seq<DiffEntry<T>>, a: seq<T>, b: seq<T>) {
    forall n: nat | SameEnd(a, b, n) :: EqualEnd(script, n)
  }

  predicate EqualEnd<T>(script: seq<DiffEntry<T>>, n: nat) {
    n <= |script| && forall k | |script| - n <= k < |script| :: script[k].kind == Equal
  }

  /** Of several longest common subsequences, which one is kept. */
  lemma BacktrackChooses<T(!new)>(a: seq<T>, b: seq<T>)
    ensures var script := Backtrack(a, b, |a|, |b|);
            KeepsWherePossible(script, a, b) && RemovesOnlyIfBetter(script, a, b) && KeepsEnd(script, a, b)
  {
    var script := Backtrack(a, b, |a|, |b|);
    forall k: nat | k < |script| ensures EqualWhereMet(script, a, b, k) { BacktrackEqualWhereMet(a, b, k); }
    forall k: nat | k < |script| ensures RemovedOnlyIfBetter(script, a, b, k) { BacktrackRemovedOnlyIfBetter(a, b, k); }
    forall n: nat | SameEnd(a, b, n) ensures EqualEnd(script, n) {
      assert a[..|a|] == a && b[..|b|] == b;
      BacktrackKeepsEnd(a, b, |a|, |b|, n);
    }
  }

  // ---------------------------------------------------------------- the function

  lemma PushBeforeReverse<T>(script: seq<T>, front: seq<T>, e: T, pushed: seq<T>)
    requires script == (front + [e]) + Reversed(pushed)
    ensures script == front + Reversed(pushed + [e])
  {
    assert (pushed + [e])[..|pushed|] == pushed;
  }

  function Reversed<T>(s: seq<T>): (r: seq<T>) {
    if s == [] then [] else [s[|s| - 1]] + Reversed(s[..|s| - 1])
  }

  /** The promises of `ComputeLineDiff`, as properties of the script the backtracking loop emits. */
  lemma BacktrackMeetsContract(original: string, edited: string)
    ensures var a, b := Lines(original), Lines(edited);
            var diff := Backtrack(a, b, |a|, |b|);
            && Transforms(diff, a, b)
            && Unlines(OldSide(diff)) == original && Unlines(NewSide(diff)) == edited
            && IsCommonSubsequence(Kept(diff), a, b)
            && (forall c | IsCommonSubsequence(c, a, b) :: |c| <= |Kept(diff)|)
            && (forall other | Transforms(other, a, b) :: Changes(diff) <= Changes(other))
            && RemovalsFirst(diff)
  {
    var a, b := Lines(original), Lines(edited);
    var diff := Backtrack(a, b, |a|, |b|);
    BacktrackTransforms(a, b, |a|, |b|);
    BacktrackKeeps(a, b, |a|, |b|);
    assert a[..|a|] == a && b[..|b|] == b;
    UnlinesLines(original);
    UnlinesLines(edited);
    BacktrackRemovalsFirst(a, b, |a|, |b|);
    var f, g := KeptEmbeds(diff);
    forall c | IsCommonSubsequence(c, a, b) ensures |c| <= |Kept(diff)| {
      var f' :| Embeds(c, a, |a|, f');
      var g' :| Embeds(c, b, |b|, g');
      LcsLengthBounds(a, b, |a|, |b|, c, f', g');
    }
    forall other | Transforms(other, a, b) ensures Changes(diff) <= Changes(other) {
      AnyScriptBound(other, a, b);
      ChangesBalance(diff);
    }
  }

  /** Every cell of `dp` in rows below `rows` holds its `LcsLength`. */
  ghost predicate Filled<T>(dp: array2<nat>, a: seq<T>, b: seq<T>, rows: nat)
    requires rows <= dp.Length0 == |a| + 1 && dp.Length1 == |b| + 1
    reads dp
  {
    forall x, y | 0 <= x < rows && 0 <= y <= |b| :: dp[x, y] == LcsLength(a, b, x, y)
  }

  method FillTable<T(==)>(a: seq<T>, b: seq<T>) returns (dp: array2<nat>)
    ensures fresh(dp) && dp.Length0 == |a| + 1 && dp.Length1 == |b| + 1
    ensures Filled(dp, a, b, |a| + 1)
  {
    dp := new nat[|a| + 1, |b| + 1]((_, _) => 0);
    for i := 1 to |a| + 1
      invariant Filled(dp, a, b, i)
      invariant forall x | 0 <= x <= |a| :: dp[x, 0] == 0
    {
      FillRow(dp, a, b, i);
    }
  }

  /** The inner loop: one row, from the one above it. */
  method FillRow<T(==)>(dp: array2<nat>, a: seq<T>, b: seq<T>, i: nat)
    requires dp.Length0 == |a| + 1 && dp.Length1 == |b| + 1 && 1 <= i <= |a|
    requires Filled(dp, a, b, i) && forall x | 0 <= x <= |a| :: dp[x, 0] == 0
    modifies dp
    ensures Filled(dp, a, b, i + 1) && forall x | 0 <= x <= |a| :: dp[x, 0] == 0
  {
    var j := 1;
    while j <= |b|
      invariant 1 <= j <= |b| + 1
      invariant forall x, y | 0 <= x <= |a| && 0 <= y <= |b| && (x != i || y == 0) :: dp[x, y] == old(dp[x, y])
      invariant forall y | 0 <= y < j :: dp[i, y] == LcsLength(a, b, i, y)
    {
      assert dp[i - 1, j - 1] == LcsLength(a, b, i - 1, j - 1) && dp[i - 1, j] == LcsLength(a, b, i - 1, j);
      if a[i - 1] == b[j - 1] {
        dp[i, j] := dp[i - 1, j - 1] + 1;
      } else {
        dp[i, j] := Max(dp[i - 1, j], dp[i, j - 1]);
      }
      j := j + 1;
    }
  }

  /** The backtracking loop over a filled table. */
  method DiffLines<T(==)>(oldLines: seq<T>, newLines: seq<T>) returns (diff: seq<DiffEntry<T>>)
    ensures diff == Backtrack(oldLines, newLines, |oldLines|, |newLines|)
  {
    var m, n := |oldLines|, |newLines|;
    var dp := FillTable(oldLines, newLines);
    var i, j := m, n;
    var entries: seq<DiffEntry<T>> := [];
    while i > 0 || j > 0
      invariant 0 <= i <= m && 0 <= j <= n
      invariant Filled(dp, oldLines, newLines, m + 1)
      invariant Backtrack(oldLines, newLines, m, n) == Backtrack(oldLines, newLines, i, j) + Reversed(entries)
      decreases i + j
    {
      ghost var i0, j0, pushed := i, j, entries;
      BacktrackStep(oldLines, newLines, i, j);
      assert i > 0 && j > 0 ==>
          && dp[i, j - 1] == LcsLength(oldLines, newLines, i, j - 1)
          && dp[i - 1, j] == LcsLength(oldLines, newLines, i - 1, j);
      if i > 0 && j > 0 && oldLines[i - 1] == newLines[j - 1] {
        entries := entries + [DiffEntry(Equal, oldLines[i - 1])];
        i, j := i - 1, j - 1;
      } else if j > 0 && (i == 0 || dp[i, j - 1] >= dp[i - 1, j]) {
        entries := entries + [DiffEntry(Added, newLines[j - 1])];
        j := j - 1;
      } else {
        entries := entries + [DiffEntry(Removed, oldLines[i - 1])];
        i := i - 1;
      }
      ghost var e := Emitted(oldLines, newLines, i0, j0);
      assert (i, j) == Earlier(oldLines, newLines, i0, j0) && entries == pushed + [e];
      PushBeforeReverse(Backtrack(oldLines, newLines, m, n), Backtrack(oldLines, newLines, i, j), e, pushed);
    }
    diff := Reversed(entries);
  }

  method ComputeLineDiff(original: string, edited: string) returns (diff: seq<DiffEntry<string>>)
    // reconstruction of both sides
    ensures Transforms(diff, Lines(original), Lines(edited))
    ensures Unlines(OldSide(diff)) == original && Unlines(NewSide(diff)) == edited
    // the kept lines are a longest common subsequence
    ensures IsCommonSubsequence(Kept(diff), Lines(original), Lines(edited))
    ensures forall c | IsCommonSubsequence(c, Lines(original), Lines(edited)) :: |c| <= |Kept(diff)|
    // no script changes fewer lines
    ensures forall other | Transforms(other, Lines(original), Lines(edited)) :: Changes(diff) <= Changes(other)
    // removals come first
    ensures RemovalsFirst(diff)
    // of several longest common subsequences, which one is kept
    ensures KeepsWherePossible(diff, Lines(original), Lines(edited))
    ensures RemovesOnlyIfBetter(diff, Lines(original), Lines(edited))
    ensures KeepsEnd(diff, Lines(original), Lines(edited))
    ensures diff == Backtrack(Lines(original), Lines(edited), |Lines(original)|, |Lines(edited)|)
  {
    diff := DiffLines(Lines(original), Lines(edited));
    BacktrackMeetsContract(original, edited);
    BacktrackChooses(Lines(original), Lines(edited));
  }
}
