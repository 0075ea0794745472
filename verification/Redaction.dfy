/** Output validation of the prompt firewall, `PromptFirewall.validate_output` in
    `packages/agents/src/lintel/agents/prompt_firewall.py`: leaked fingerprints are replaced, one after
    the other, by a marker. The proofs follow a trace of the text: the pieces kept, and between them the
    fingerprint occurrences cut out. */
module Redaction {
  import opened Common

  const MARKER := "[REDACTED]"

  const BUILT_IN_FINGERPRINTS := [
    "You are a senior software",
    "Output ONLY valid JSON",
    "Output ONLY the research report",
    "Required JSON schema"
  ]

  predicate IsAt(f: string, s: string, k: nat) { k + |f| <= |s| && s[k..k + |f|] == f }

  /** Python's `f in s`. */
  predicate Occurs(f: string, s: string) { exists k | 0 <= k <= |s| :: IsAt(f, s, k) }

  /** Python's `s.replace(f, r)`: leftmost occurrences first, none overlapping; an empty `f` matches
      around every character. */
  function Replace(s: string, f: string, r: string): string {
    if f == "" then (if s == "" then r else r + [s[0]] + Replace(s[1..], f, r))
    else if |s| < |f| then s
    else if f <= s then r + Replace(s[|f|..], f, r)
    else [s[0]] + Replace(s[1..], f, r)
  }

  /** The fingerprints that occur in the response, in the order they are listed. */
  function Leaked(fingerprints: seq<string>, text: string): seq<string> {
    if fingerprints == [] then []
    else Leaked(Front(fingerprints), text) + if Occurs(Last(fingerprints), text) then [Last(fingerprints)] else []
  }

  /** The response after the listed fingerprints have been replaced in turn. */
  function Redact(text: string, leaked: seq<string>): string {
    if leaked == [] then text else Replace(Redact(text, Front(leaked)), Last(leaked), MARKER)
  }

  function CleanedText(fingerprints: seq<string>, text: string): string {
    if text == "" then "" else Redact(text, Leaked(fingerprints, text))
  }

  // ---------------------------------------------------------------- traces

  datatype Trace = Tail(kept: string) | Cut(kept: string, hit: string, rest: Trace)

  /** The text a trace was cut from. */
  function Text(t: Trace): string {
    match t
    case Tail(kept) => kept
    case Cut(kept, hit, rest) => kept + hit + Text(rest)
  }

  /** The text with a marker in place of every cut. */
  function Marked(t: Trace): string {
    match t
    case Tail(kept) => kept
    case Cut(kept, hit, rest) => kept + MARKER + Marked(rest)
  }

  /** No kept piece contains `f`. */
  predicate FreeOf(t: Trace, f: string) {
    !Occurs(f, t.kept) && (t.Cut? ==> FreeOf(t.rest, f))
  }

  /** Every cut removed one of the listed fingerprints. */
  predicate HitsAmong(t: Trace, fingerprints: seq<string>) {
    t.Cut? ==> t.hit in fingerprints && HitsAmong(t.rest, fingerprints)
  }

  function Prepend(c: char, t: Trace): Trace { t.(kept := [c] + t.kept) }

  function CutString(s: string, f: string): Trace
    requires f != ""
  {
    if |s| < |f| then Tail(s)
    else if f <= s then Cut("", f, CutString(s[|f|..], f))
    else Prepend(s[0], CutString(s[1..], f))
  }

  /** `t`, then the cut `hit`, then `rest`. */
  function Graft(t: Trace, hit: string, rest: Trace): Trace {
    match t
    case Tail(kept) => Cut(kept, hit, rest)
    case Cut(kept, h, more) => Cut(kept, h, Graft(more, hit, rest))
  }

  function CutTrace(t: Trace, f: string): Trace
    requires f != ""
  {
    match t
    case Tail(kept) => CutString(kept, f)
    case Cut(kept, hit, rest) => Graft(CutString(kept, f), hit, CutTrace(rest, f))
  }

  lemma {:induction false} CutStringExact(s: string, f: string)
    requires f != ""
    ensures Text(CutString(s, f)) == s
    ensures Marked(CutString(s, f)) == Replace(s, f, MARKER)
  {
    if |s| >= |f| {
      if f <= s {
        CutStringExact(s[|f|..], f);
        assert s == "" + f + s[|f|..];
        assert MARKER + Replace(s[|f|..], f, MARKER) == "" + MARKER + Replace(s[|f|..], f, MARKER);
      } else {
        CutStringExact(s[1..], f);
        PrependTexts(s[0], CutString(s[1..], f));
        assert s == [s[0]] + s[1..];
      }
    }
  }

  lemma {:induction false} CutStringHits(s: string, f: string, fingerprints: seq<string>)
    requires f != "" && f in fingerprints
    ensures HitsAmong(CutString(s, f), fingerprints)
  {
    if |s| >= |f| { CutStringHits(if f <= s then s[|f|..] else s[1..], f, fingerprints); }
  }

  lemma PrependTexts(c: char, t: Trace)
    ensures Text(Prepend(c, t)) == [c] + Text(t)
    ensures Marked(Prepend(c, t)) == [c] + Marked(t)
  {
    if t.Cut? {
      assert [c] + t.kept + t.hit + Text(t.rest) == [c] + (t.kept + t.hit + Text(t.rest));
      assert [c] + t.kept + MARKER + Marked(t.rest) == [c] + (t.kept + MARKER + Marked(t.rest));
    }
  }

  /** The first kept piece is a prefix of the text, and no kept piece contains `f`. */
  lemma {:induction false} CutStringFree(s: string, f: string)
    requires f != ""
    ensures CutString(s, f).kept <= s
    ensures FreeOf(CutString(s, f), f)
  {
    if |s| < |f| {
    } else if f <= s {
      CutStringFree(s[|f|..], f);
    } else {
      CutStringFree(s[1..], f);
      ConsFree(s, CutString(s[1..], f).kept, f);
    }
  }

  lemma ConsFree(s: string, piece: string, f: string)
    requires s != "" && piece <= s[1..] && !(f <= s) && !Occurs(f, piece)
    ensures !Occurs(f, [s[0]] + piece)
  {
    var longer := [s[0]] + piece;
    assert longer <= s;
    forall k | 0 <= k <= |longer| ensures !IsAt(f, longer, k) {
      assert IsAt(f, longer, 0) ==> f <= s;
      assert k > 0 ==> (IsAt(f, longer, k) <==> IsAt(f, piece, k - 1));
    }
  }

  /** Cutting makes pieces smaller, so a piece free of `g` stays so. */
  lemma {:induction false} CutStringKeepsFree(s: string, f: string, g: string)
    requires f != "" && !Occurs(g, s)
    ensures FreeOf(CutString(s, f), g)
  {
    if |s| >= |f| {
      if f <= s {
        SuffixFree(s, |f|, g);
        CutStringKeepsFree(s[|f|..], f, g);
        assert IsAt(g, "", 0) ==> IsAt(g, s, 0);
      } else {
        SuffixFree(s, 1, g);
        CutStringKeepsFree(s[1..], f, g);
        CutStringFree(s, f);
        PrefixFree(s, CutString(s, f).kept, g);
      }
    }
  }

  lemma SuffixFree(s: string, n: nat, g: string)
    requires n <= |s| && !Occurs(g, s)
    ensures !Occurs(g, s[n..])
  {
    forall k | 0 <= k <= |s| - n ensures !IsAt(g, s[n..], k) {
      AtInSuffix(g, s, n, k);
    }
  }

  lemma AtInSuffix(g: string, s: string, n: nat, k: nat)
    requires n + k <= |s|
    ensures IsAt(g, s[n..], k) <==> IsAt(g, s, n + k)
  {
    if n + k + |g| <= |s| { assert s[n..][k..k + |g|] == s[n + k..n + k + |g|]; }
  }

  lemma PrefixFree(s: string, piece: string, g: string)
    requires piece <= s && !Occurs(g, s)
    ensures !Occurs(g, piece)
  {
    forall k | 0 <= k <= |piece| ensures !IsAt(g, piece, k) {
      AtInPrefix(g, s, piece, k);
    }
  }

  lemma AtInPrefix(g: string, s: string, piece: string, k: nat)
    requires piece <= s && k <= |piece|
    ensures IsAt(g, piece, k) ==> IsAt(g, s, k)
  {
    if k + |g| <= |piece| { assert piece[k..k + |g|] == s[k..k + |g|]; }
  }

  lemma {:induction false} GraftExact(t: Trace, hit: string, rest: Trace)
    ensures Text(Graft(t, hit, rest)) == Text(t) + hit + Text(rest)
    ensures Marked(Graft(t, hit, rest)) == Marked(t) + MARKER + Marked(rest)
  {
    if t.Cut? {
      GraftExact(t.rest, hit, rest);
      Regroup(t.kept, t.hit, Text(t.rest), hit, Text(rest));
      Regroup(t.kept, MARKER, Marked(t.rest), MARKER, Marked(rest));
    }
  }

  lemma Regroup(a: string, b: string, c: string, d: string, e: string)
    ensures a + b + (c + d + e) == (a + b + c) + d + e
  {
  }

  lemma {:induction false} GraftHits(t: Trace, hit: string, rest: Trace, fingerprints: seq<string>)
    requires HitsAmong(t, fingerprints) && hit in fingerprints && HitsAmong(rest, fingerprints)
    ensures HitsAmong(Graft(t, hit, rest), fingerprints)
  {
    if t.Cut? { GraftHits(t.rest, hit, rest, fingerprints); }
  }

  // ---------------------------------------------------------------- fingerprints detached from the marker

  /** Wherever `m` stands, no occurrence of `f` shares a character with it. */
  ghost predicate Apart(f: string, m: string) {
    forall x: string, y: string, k: nat :: IsAt(f, x + m + y, k) ==> k + |f| <= |x| || k >= |x| + |m|
  }

  ghost predicate Detached(f: string) { f != "" && Apart(f, MARKER) }

  lemma CharOfOccurrence(f: string, s: string, k: nat, j: nat)
    requires IsAt(f, s, k) && k <= j < k + |f|
    ensures s[j] in f
  {
    assert f[j - k] == s[k..k + |f|][j - k];
  }

  lemma PartOfOccurrence(f: string, s: string, k: nat, part: string, at: nat)
    requires IsAt(f, s, k) && at <= k && k + |f| <= at + |part| <= |s| && s[at..at + |part|] == part
    ensures Occurs(f, part)
  {
    assert forall j | k <= j < k + |f| :: s[j] == s[at..at + |part|][j - at] == s[k..k + |f|][j - k];
    assert IsAt(f, part, k - at);
  }

  /** Fingerprints without brackets that are not part of the marker's word are detached. */
  lemma BracketFreeIsDetached(f: string)
    requires f != "" && '[' !in f && ']' !in f && !Occurs(f, "REDACTED")
    ensures Detached(f)
  {
    forall x: string, y: string, k: nat | IsAt(f, x + MARKER + y, k)
      ensures k + |f| <= |x| || k >= |x| + |MARKER|
    {
      var s := x + MARKER + y;
      assert s[|x|] == '[' && s[|x| + 9] == ']' && s[|x| + 1..|x| + 1 + 8] == "REDACTED";
      if k <= |x| < k + |f| {
        CharOfOccurrence(f, s, k, |x|);
      } else if k <= |x| + 9 < k + |f| {
        CharOfOccurrence(f, s, k, |x| + 9);
      } else if |x| < k < |x| + 9 {
        PartOfOccurrence(f, s, k, "REDACTED", |x| + 1);
      }
    }
  }

  lemma BuiltInsDetached()
    ensures forall f | f in BUILT_IN_FINGERPRINTS :: Detached(f)
  {
    LongIsDetached("You are a senior software");
    LongIsDetached("Output ONLY valid JSON");
    LongIsDetached("Output ONLY the research report");
    LongIsDetached("Required JSON schema");
  }

  lemma LongIsDetached(f: string)
    requires |f| > 8 && forall i | 0 <= i < |f| :: f[i] != '[' && f[i] != ']'
    ensures Detached(f)
  {
    BracketFreeIsDetached(f);
  }

  // ---------------------------------------------------------------- replacing around markers

  lemma ReplaceHead(s: string, f: string, r: string)
    requires s != "" && f != "" && !(f <= s)
    ensures Replace(s, f, r) == [s[0]] + Replace(s[1..], f, r)
  {
    assert s == [s[0]] + s[1..];
  }

  lemma {:induction false} ReplaceSkips(m: string, y: string, f: string, r: string)
    requires f != "" && forall k | 0 <= k < |m| :: !IsAt(f, m + y, k)
    ensures Replace(m + y, f, r) == m + Replace(y, f, r)
  {
    if m == "" {
      assert m + y == y;
    } else {
      SkipFirst(f, m, y);
      calc {
        Replace(m + y, f, r);
        { ReplaceHead(m + y, f, r); }
        [m[0]] + Replace(m[1..] + y, f, r);
        { ReplaceSkips(m[1..], y, f, r); }
        [m[0]] + (m[1..] + Replace(y, f, r));
        m + Replace(y, f, r);
      }
    }
  }

  lemma SkipFirst(f: string, m: string, y: string)
    requires m != "" && forall k | 0 <= k < |m| :: !IsAt(f, m + y, k)
    ensures !(f <= m + y) && (m + y)[0] == m[0] && (m + y)[1..] == m[1..] + y
    ensures forall k | 0 <= k < |m[1..]| :: !IsAt(f, m[1..] + y, k)
  {
    assert !IsAt(f, m + y, 0);
    assert (m + y)[1..] == m[1..] + y;
    forall k: nat | k < |m[1..]| ensures !IsAt(f, m[1..] + y, k) {
      assert !IsAt(f, m + y, k + 1);
    }
  }

  /** A string apart from `m` is replaced independently on the two sides of `m`. */
  lemma {:induction false} ReplaceAround(x: string, m: string, y: string, f: string, r: string)
    requires f != "" && Apart(f, m)
    ensures Replace(x + m + y, f, r) == Replace(x, f, r) + m + Replace(y, f, r)
    decreases |x|
  {
    var s := x + m + y;
    if x == "" {
      assert s == m + y;
      NotInside(f, m, y);
      ReplaceSkips(m, y, f, r);
    } else if f <= s {
      assert IsAt(f, s, 0);
      ReplaceAround(x[|f|..], m, y, f, r);
      AroundHit(x, m, y, f, r);
    } else {
      ReplaceAround(x[1..], m, y, f, r);
      AroundMiss(x, m, y, f, r);
    }
  }

  lemma NotInside(f: string, m: string, y: string)
    requires f != "" && Apart(f, m)
    ensures forall k | 0 <= k < |m| :: !IsAt(f, m + y, k)
  {
    assert "" + m + y == m + y;
    forall k: nat | k < |m| ensures !IsAt(f, m + y, k) {
      assert IsAt(f, "" + m + y, k) ==> k + |f| <= 0;
    }
  }

  lemma AroundHit(x: string, m: string, y: string, f: string, r: string)
    requires f != "" && f <= x
    requires Replace(x[|f|..] + m + y, f, r) == Replace(x[|f|..], f, r) + m + Replace(y, f, r)
    ensures Replace(x + m + y, f, r) == Replace(x, f, r) + m + Replace(y, f, r)
  {
    DropFromConcat(x, m, y, |f|);
    LongerPrefix(f, x, m, y);
    StartOverConcat(r, Replace(x[|f|..], f, r), m, Replace(y, f, r));
  }

  lemma DropFromConcat(x: string, m: string, y: string, n: nat)
    requires n <= |x|
    ensures (x + m + y)[n..] == x[n..] + m + y
  {
  }

  lemma StartOverConcat(r: string, x: string, m: string, y: string)
    ensures (r + x) + m + y == r + (x + m + y)
  {
  }

  lemma AroundMiss(x: string, m: string, y: string, f: string, r: string)
    requires f != "" && x != "" && !(f <= x + m + y)
    requires Replace(x[1..] + m + y, f, r) == Replace(x[1..], f, r) + m + Replace(y, f, r)
    ensures Replace(x + m + y, f, r) == Replace(x, f, r) + m + Replace(y, f, r)
  {
    TailOfConcat(x, m, y);
    LongerPrefix(f, x, m, y);
    calc {
      Replace(x + m + y, f, r);
      { ReplaceHead(x + m + y, f, r); }
      [x[0]] + Replace(x[1..] + m + y, f, r);
      { HeadOverConcat(x[0], Replace(x[1..], f, r), m, Replace(y, f, r)); }
      ([x[0]] + Replace(x[1..], f, r)) + m + Replace(y, f, r);
      { ReplaceHead(x, f, r); }
      Replace(x, f, r) + m + Replace(y, f, r);
    }
  }

  lemma TailOfConcat(x: string, m: string, y: string)
    requires x != ""
    ensures x + m + y != "" && (x + m + y)[0] == x[0] && (x + m + y)[1..] == x[1..] + m + y
  {
  }

  lemma LongerPrefix(f: string, x: string, m: string, y: string)
    ensures f <= x ==> f <= x + m + y
  {
  }

  lemma HeadOverConcat(c: char, x: string, m: string, y: string)
    ensures ([c] + x) + m + y == [c] + (x + m + y)
  {
  }

  /** Cutting a trace is replacing in its marked text, without touching the text it was cut from. */
  lemma {:induction false} CutTraceExact(t: Trace, f: string, fingerprints: seq<string>)
    requires Detached(f) && f in fingerprints && HitsAmong(t, fingerprints)
    ensures Text(CutTrace(t, f)) == Text(t)
    ensures Marked(CutTrace(t, f)) == Replace(Marked(t), f, MARKER)
    ensures HitsAmong(CutTrace(t, f), fingerprints)
  {
    CutStringExact(t.kept, f);
    CutStringHits(t.kept, f, fingerprints);
    if t.Cut? {
      CutTraceExact(t.rest, f, fingerprints);
      GraftExact(CutString(t.kept, f), t.hit, CutTrace(t.rest, f));
      GraftHits(CutString(t.kept, f), t.hit, CutTrace(t.rest, f), fingerprints);
      ReplaceAround(t.kept, MARKER, Marked(t.rest), f, MARKER);
    }
  }

  /** A detached fingerprint absent from every kept piece is absent from the marked text. */
  lemma {:induction false} FreeMeansAbsent(t: Trace, g: string)
    requires Detached(g) && FreeOf(t, g)
    ensures !Occurs(g, Marked(t))
  {
    if t.Cut? {
      FreeMeansAbsent(t.rest, g);
      var s := t.kept + MARKER + Marked(t.rest);
      var skip := |t.kept| + |MARKER|;
      forall k | 0 <= k <= |s| ensures !IsAt(g, s, k) {
        if IsAt(g, s, k) {
          if k + |g| <= |t.kept| {
            assert IsAt(g, t.kept, k);
          } else {
            assert s[skip..] == Marked(t.rest);
            assert IsAt(g, Marked(t.rest), k - skip);
          }
        }
      }
    }
  }

  /** The trace left after the listed fingerprints have been cut in turn. */
  function TraceOf(text: string, leaked: seq<string>): Trace
    requires "" !in leaked
  {
    if leaked == [] then Tail(text) else CutTrace(TraceOf(text, Front(leaked)), Last(leaked))
  }

  lemma {:induction false} TraceOfExact(text: string, leaked: seq<string>, fingerprints: seq<string>)
    requires forall f | f in leaked :: f in fingerprints && Detached(f)
    ensures "" !in leaked
    ensures Text(TraceOf(text, leaked)) == text
    ensures Marked(TraceOf(text, leaked)) == Redact(text, leaked)
    ensures HitsAmong(TraceOf(text, leaked), fingerprints)
  {
    if leaked != [] {
      TraceOfExact(text, Front(leaked), fingerprints);
      CutTraceExact(TraceOf(text, Front(leaked)), Last(leaked), fingerprints);
    }
  }

  /** The trace of replacing the empty string: a cut around every character. */
  function EmptyCut(s: string): (t: Trace)
    ensures t.kept == ""
  {
    if s == "" then Cut("", "", Tail("")) else Cut("", "", Prepend(s[0], EmptyCut(s[1..])))
  }

  lemma {:induction false} EmptyCutMarked(s: string)
    ensures Marked(EmptyCut(s)) == Replace(s, "", MARKER)
  {
    if s == "" {
      assert "" + MARKER + "" == MARKER;
    } else {
      EmptyCutMarked(s[1..]);
      PrependTexts(s[0], EmptyCut(s[1..]));
      assert "" + MARKER + ([s[0]] + Replace(s[1..], "", MARKER)) == MARKER + [s[0]] + Replace(s[1..], "", MARKER);
    }
  }

  lemma {:induction false} EmptyCutFree(s: string, g: string)
    requires g != "" && !Occurs(g, s)
    ensures FreeOf(EmptyCut(s), g)
  {
    if s != "" {
      SuffixFree(s, 1, g);
      EmptyCutFree(s[1..], g);
      PrefixFree(s, [s[0]], g);
      assert [s[0]] + "" == [s[0]];
    }
  }

  /** One replacement leaves no occurrence of what it replaces, and brings back no detached string that was
      absent, whatever it replaces. */
  lemma ReplaceLeavesAbsent(s: string, f: string, g: string)
    requires Detached(g) && (g == f || !Occurs(g, s))
    ensures !Occurs(g, Replace(s, f, MARKER))
  {
    if f == "" {
      EmptyCutMarked(s);
      EmptyCutFree(s, g);
      FreeMeansAbsent(EmptyCut(s), g);
    } else {
      CutStringExact(s, f);
      if g == f { CutStringFree(s, f); } else { CutStringKeepsFree(s, f, g); }
      FreeMeansAbsent(CutString(s, f), g);
    }
  }

  lemma {:induction false} RedactLeavesAbsent(text: string, leaked: seq<string>, g: string)
    requires Detached(g) && (g in leaked || !Occurs(g, text))
    ensures !Occurs(g, Redact(text, leaked))
  {
    if leaked != [] {
      if g in Front(leaked) || !Occurs(g, text) { RedactLeavesAbsent(text, Front(leaked), g); }
      ReplaceLeavesAbsent(Redact(text, Front(leaked)), Last(leaked), g);
    }
  }

  lemma {:induction false} LeakedExact(fingerprints: seq<string>, text: string)
    ensures forall f :: f in Leaked(fingerprints, text) <==> f in fingerprints && Occurs(f, text)
  {
    if fingerprints != [] {
      LeakedExact(Front(fingerprints), text);
      assert fingerprints == Front(fingerprints) + [Last(fingerprints)];
    }
  }

  // ---------------------------------------------------------------- main results

  /** Nothing survives: a fingerprint detached from the marker, leaked or not, does not occur in the
      cleaned text, whatever the other fingerprints are. */
  lemma NoFingerprintSurvives(fingerprints: seq<string>, text: string, g: string)
    requires g in fingerprints && Detached(g)
    ensures !Occurs(g, CleanedText(fingerprints, text))
  {
    LeakedExact(fingerprints, text);
    if text != "" { RedactLeavesAbsent(text, Leaked(fingerprints, text), g); }
  }

  /** A fingerprint with a detached part that is listed too, before it or after it, does not survive
      either, even if it is not detached itself. */
  lemma ShieldedByPart(fingerprints: seq<string>, text: string, part: string, f: string)
    requires part in fingerprints && Detached(part) && Occurs(part, f)
    ensures !Occurs(f, CleanedText(fingerprints, text))
  {
    NoFingerprintSurvives(fingerprints, text, part);
    PartAbsent(part, f, CleanedText(fingerprints, text));
  }

  lemma PartAbsent(part: string, f: string, s: string)
    requires Occurs(part, f) && !Occurs(part, s)
    ensures !Occurs(f, s)
  {
    if Occurs(f, s) {
      var d :| 0 <= d <= |f| && IsAt(part, f, d);
      var k :| 0 <= k <= |s| && IsAt(f, s, k);
      PartAt(part, f, s, d, k);
    }
  }

  lemma PartAt(part: string, f: string, s: string, d: nat, k: nat)
    requires IsAt(part, f, d) && IsAt(f, s, k)
    ensures IsAt(part, s, k + d)
  {
    SliceOfSlice(s, k, k + |f|, d, d + |part|);
  }

  lemma SliceOfSlice(s: string, i: nat, j: nat, d: nat, e: nat)
    requires i <= j <= |s| && d <= e <= j - i
    ensures s[i..j][d..e] == s[i + d..i + e]
  {
    forall q | 0 <= q < e - d ensures s[i..j][d..e][q] == s[i + d..i + e][q] {
      assert s[i..j][d + q] == s[i + d + q];
    }
  }

  /** Nothing else is lost: the cleaned text is the response with some occurrences of fingerprints, and
      nothing but those, each replaced by one marker; all other text is kept, in order. */
  lemma OnlyFingerprintsReplaced(fingerprints: seq<string>, text: string)
    requires forall f | f in fingerprints && Occurs(f, text) :: Detached(f)
    ensures exists t :: Text(t) == text && Marked(t) == CleanedText(fingerprints, text) && HitsAmong(t, fingerprints)
  {
    var leaked := Leaked(fingerprints, text);
    LeakedExact(fingerprints, text);
    if text == "" {
      assert Text(Tail("")) == text && Marked(Tail("")) == "" && HitsAmong(Tail(""), fingerprints);
    } else {
      TraceOfExact(text, leaked, fingerprints);
    }
  }

  /** The fingerprint, or a part of it, is detached and listed. */
  ghost predicate Guarded(fingerprints: seq<string>, f: string) {
    exists part | part in fingerprints :: Detached(part) && Occurs(part, f)
  }

  lemma DetachedIsGuarded(fingerprints: seq<string>, f: string)
    requires f in fingerprints && Detached(f)
    ensures Guarded(fingerprints, f)
  {
    assert IsAt(f, f, 0);
  }

  /** Validating a cleaned text again finds nothing, if every fingerprint is guarded, as all detached ones are. */
  lemma ValidationSettles(fingerprints: seq<string>, text: string)
    requires forall f | f in fingerprints :: Guarded(fingerprints, f)
    ensures var cleaned := CleanedText(fingerprints, text);
            Leaked(fingerprints, cleaned) == [] && CleanedText(fingerprints, cleaned) == cleaned
  {
    var cleaned := CleanedText(fingerprints, text);
    var again := Leaked(fingerprints, cleaned);
    LeakedExact(fingerprints, cleaned);
    forall f ensures f !in again {
      if f in fingerprints {
        var part :| part in fingerprints && Detached(part) && Occurs(part, f);
        ShieldedByPart(fingerprints, text, part, f);
      }
    }
    assert again == [] by { MemberOf(again); }
  }

  lemma MemberOf<T>(s: seq<T>)
    ensures s != [] ==> exists x :: x in s
  {
    if s != [] { assert s[0] in s; }
  }

  /** The fingerprint is empty, is part of the marker, or starts with an end of the marker. */
  ghost predicate Clings(f: string) {
    f == "" || Occurs(f, MARKER) || exists n :: SuffixLeads(MARKER, n, f)
  }

  /** The last `n` characters of `m` are the first of `f`. */
  predicate SuffixLeads(m: string, n: nat, f: string) { 1 <= n <= |m| && m[|m| - n..] <= f }

  /** `f` ends with the first `n` characters of `m`. */
  predicate PrefixEnds(m: string, n: nat, f: string) { 1 <= n <= |m| && n <= |f| && f[|f| - n..] == m[..n] }

  /** The fingerprint clings to the marker, contains it, or ends with a beginning of it. */
  ghost predicate Touches(f: string) {
    Clings(f) || Occurs(MARKER, f) || exists n :: PrefixEnds(MARKER, n, f)
  }

  lemma UntouchingIsApart(f: string, m: string)
    requires f != "" && m != "" && !Occurs(f, m) && !Occurs(m, f)
    requires forall n :: !SuffixLeads(m, n, f)
    requires forall n :: !PrefixEnds(m, n, f)
    ensures Apart(f, m)
  {
    forall x: string, y: string, k: nat | IsAt(f, x + m + y, k)
      ensures k + |f| <= |x| || k >= |x| + |m|
    {
      if k <= |x| < k + |f| {
        if |x| + |m| <= k + |f| { MiddleInside(f, x, m, y, k); } else { PrefixFollows(f, x, m, y, k); }
      } else if |x| < k < |x| + |m| {
        var s := x + m + y;
        assert s[|x|..|x| + |m|] == m;
        if k + |f| <= |x| + |m| { PartOfOccurrence(f, s, k, m, |x|); } else { SuffixStarts(f, x, m, y, k); }
      }
    }
  }

  lemma MiddleInside(f: string, x: string, m: string, y: string, k: nat)
    requires IsAt(f, x + m + y, k) && k <= |x| && |x| + |m| <= k + |f|
    ensures Occurs(m, f)
  {
    var s := x + m + y;
    assert s[k..k + |f|][|x| - k..|x| - k + |m|] == s[|x|..|x| + |m|] == m;
    assert IsAt(m, f, |x| - k);
  }

  lemma PrefixFollows(f: string, x: string, m: string, y: string, k: nat)
    requires IsAt(f, x + m + y, k) && k <= |x| < k + |f| < |x| + |m|
    ensures PrefixEnds(m, k + |f| - |x|, f)
  {
    var s, n := x + m + y, k + |f| - |x|;
    assert s[k..k + |f|][|f| - n..] == s[|x|..|x| + n] == m[..n];
  }

  lemma SuffixStarts(f: string, x: string, m: string, y: string, k: nat)
    requires IsAt(f, x + m + y, k) && |x| < k < |x| + |m| < k + |f|
    ensures SuffixLeads(m, |x| + |m| - k, f)
  {
    var s, n := x + m + y, |x| + |m| - k;
    assert s[k..k + n] == m[|m| - n..];
    assert s[k..k + |f|][..n] == s[k..k + n];
  }

  /** `f` is completed by a marker between two parts of it: it begins with `a`, ends with `b`, occurs around
      `m` in `a + m + b`, and right after `a` has a character of `m`. */
  predicate CompletedBetween(f: string, a: string, m: string, b: string) {
    && |a| + |b| < |f| && a <= f && f[|f| - |b|..] == b && f[|a|] in m
    && Occurs(f, a + m + b)
  }

  /** A touching fingerprint is completed by the marker between two parts of it. */
  lemma TouchingParts(f: string) returns (a: string, b: string)
    requires f != "" && Touches(f)
    ensures CompletedBetween(f, a, MARKER, b)
  {
    if Occurs(f, MARKER) {
      a, b := "", "";
      PartBetween(f, MARKER);
    } else if exists n :: SuffixLeads(MARKER, n, f) {
      var n: nat :| SuffixLeads(MARKER, n, f);
      a, b := "", f[n..];
      LeadingBetween(f, MARKER, n);
    } else if Occurs(MARKER, f) {
      var k :| 0 <= k <= |f| && IsAt(MARKER, f, k);
      a, b := f[..k], f[k + |MARKER|..];
      WholeBetween(f, MARKER, k);
    } else {
      var n: nat :| PrefixEnds(MARKER, n, f);
      a, b := f[..|f| - n], "";
      EndingBetween(f, MARKER, n);
    }
  }

  lemma PartBetween(f: string, m: string)
    requires f != "" && Occurs(f, m)
    ensures CompletedBetween(f, "", m, "")
  {
    var k :| 0 <= k <= |m| && IsAt(f, m, k);
    assert m[k] == m[k..k + |f|][0];
    assert "" + m + "" == m;
  }

  lemma LeadingBetween(f: string, m: string, n: nat)
    requires SuffixLeads(m, n, f)
    ensures CompletedBetween(f, "", m, f[n..])
  {
    var s, k := "" + m + f[n..], |m| - n;
    assert f[..n] == m[k..];
    assert s[k..k + |f|] == m[k..] + f[n..] == f[..n] + f[n..] == f;
    assert IsAt(f, s, k);
    assert f[0] == f[..n][0] == m[k];
  }

  lemma WholeBetween(f: string, m: string, k: nat)
    requires m != "" && IsAt(m, f, k)
    ensures CompletedBetween(f, f[..k], m, f[k + |m|..])
  {
    assert f[k] == f[k..k + |m|][0];
    assert f[..k] + m + f[k + |m|..] == f;
    assert IsAt(f, f, 0);
  }

  lemma EndingBetween(f: string, m: string, n: nat)
    requires PrefixEnds(m, n, f)
    ensures CompletedBetween(f, f[..|f| - n], m, "")
  {
    var a := f[..|f| - n];
    var s := a + m + "";
    assert s[0..0 + |f|] == a + m[..n] == a + f[|f| - n..] == f;
    assert IsAt(f, s, 0);
    assert f[|a|] == f[|f| - n..][0] == m[..n][0];
  }

  lemma UntouchingIsDetached(f: string)
    requires !Touches(f)
    ensures Detached(f)
  {
    UntouchingIsApart(f, MARKER);
  }

  /** Being detached, a statement about all texts, can be read off the fingerprint. */
  lemma DetachedExact(f: string)
    ensures Detached(f) <==> !Touches(f)
  {
    if !Touches(f) {
      UntouchingIsDetached(f);
    } else if f != "" {
      var a, b := TouchingParts(f);
      var k :| 0 <= k <= |a + MARKER + b| && IsAt(f, a + MARKER + b, k);
      assert !(k + |f| <= |a| || k >= |a| + |MARKER|);
    }
  }

  // ---------------------------------------------------------------- what a firewall guarantees

  /** The built-in fingerprint that stands where a marker is to come in the failing responses. */
  const PIVOT := BUILT_IN_FINGERPRINTS[0]

  const OTHER_BUILT_INS := BUILT_IN_FINGERPRINTS[1..]

  /** No character of the pivot is in `m`. */
  predicate Foreign(m: string) { forall i | 0 <= i < |PIVOT| :: PIVOT[i] !in m }

  /** No occurrence of `g` begins inside a pivot, or, before it, reaches into it. */
  predicate KeepsOff(g: string) {
    && g != "" && g[0] !in PIVOT[1..]
    && forall i | 0 < i < |g| && g[i] == 'Y' :: i + 1 < |g| && g[i + 1] != 'o'
  }

  lemma BuiltInsKeepOff()
    ensures KeepsOff(PIVOT) && forall g | g in OTHER_BUILT_INS :: KeepsOff(g) && g[0] != 'Y'
  {
    PivotRest();
    assert KeepsOff(PIVOT);
    ReadsPlain("Output ONLY valid JSON");
    ReadsPlain("Output ONLY the research report");
    ReadsPlain("Required JSON schema");
  }

  lemma PivotRest()
    ensures forall i | 0 < i < |PIVOT| :: PIVOT[i] != 'Y' && PIVOT[i] != 'O' && PIVOT[i] != 'R'
  {
  }

  lemma ReadsPlain(g: string)
    requires g != "" && (g[0] == 'O' || g[0] == 'R')
    requires forall i | 0 < i < |g| && g[i] == 'Y' :: i + 1 < |g| && g[i + 1] != 'o'
    ensures KeepsOff(g)
  {
    PivotRest();
  }

  lemma MarkerIsForeign()
    ensures Foreign(MARKER)
  {
  }

  /** Around a pivot, a string that keeps off it occurs only in the two parts, or as the pivot itself. */
  lemma AroundPivot(g: string, a: string, b: string, k: nat)
    requires g != "" && IsAt(g, a + PIVOT + b, k)
    ensures Occurs(g, a) || Occurs(g, b) || (k == |a| && g[0] == 'Y') || !KeepsOff(g)
  {
    var s := a + PIVOT + b;
    var past := |a| + |PIVOT|;
    assert forall j | k <= j < k + |g| :: s[j] == s[k..k + |g|][j - k] == g[j - k];
    if k + |g| <= |a| {
      assert s[k..k + |g|] == a[k..k + |g|];
      assert IsAt(g, a, k);
    } else if k < |a| {
      assert s[|a|] == PIVOT[0] && s[|a| + 1] == PIVOT[1];
      assert g[|a| - k] == 'Y';
      assert |a| - k + 1 < |g| ==> g[|a| - k + 1] == s[|a| + 1];
    } else if k >= past {
      assert s[k..k + |g|] == b[k - past..k - past + |g|];
      assert IsAt(g, b, k - past);
    } else if k > |a| {
      assert g[0] == s[k] == PIVOT[k - |a|] == PIVOT[1..][k - |a| - 1];
    } else {
      assert s[k] == PIVOT[0];
    }
  }

  /** A built-in fingerprint not in `f` occurs in `a + PIVOT + b`, for parts `a` and `b` of `f`, only as the
      pivot in the middle. */
  lemma BuiltInsAround(g: string, f: string, a: string, b: string)
    requires KeepsOff(g) && a <= f && |b| <= |f| && f[|f| - |b|..] == b && !Occurs(g, f)
    ensures forall k | 0 <= k <= |a + PIVOT + b| && IsAt(g, a + PIVOT + b, k) :: k == |a| && g[0] == 'Y'
  {
    PrefixFree(f, a, g);
    SuffixFree(f, |f| - |b|, g);
    forall k | 0 <= k <= |a + PIVOT + b| && IsAt(g, a + PIVOT + b, k) ensures k == |a| && g[0] == 'Y' {
      AroundPivot(g, a, b, k);
    }
  }

  /** Until the marker is there, `f` does not occur around the place where it comes to stand. */
  lemma NotYetThere(f: string, a: string, m: string, b: string)
    requires |a| + |b| < |f| && f[|a|] in m && Foreign(m)
    ensures !Occurs(f, a + PIVOT + b)
  {
    var s := a + PIVOT + b;
    forall k | 0 <= k <= |s| ensures !IsAt(f, s, k) {
      if k + |f| <= |s| {
        assert s[k..k + |f|][|a|] == s[k + |a|] == PIVOT[k];
      }
    }
  }

  lemma {:induction false} ReplaceAbsent(s: string, f: string, r: string)
    requires f != "" && !Occurs(f, s)
    ensures Replace(s, f, r) == s
  {
    if |s| >= |f| {
      assert !IsAt(f, s, 0);
      SuffixFree(s, 1, f);
      ReplaceAbsent(s[1..], f, r);
      assert s == [s[0]] + s[1..];
    }
  }

  lemma ReplacedInMiddle(a: string, p: string, b: string)
    requires p != "" && !Occurs(p, b) && forall k | 0 <= k < |a| :: !IsAt(p, a + (p + b), k)
    ensures Replace(a + (p + b), p, MARKER) == a + (MARKER + b)
  {
    calc {
      Replace(a + (p + b), p, MARKER);
      { ReplaceSkips(a, p + b, p, MARKER); }
      a + Replace(p + b, p, MARKER);
      { assert (p + b)[|p|..] == b; }
      a + (MARKER + Replace(b, p, MARKER));
      { ReplaceAbsent(b, p, MARKER); }
      a + (MARKER + b);
    }
  }

  lemma Regrouped(a: string, p: string, b: string)
    ensures a + p + b == a + (p + b)
  {
  }

  /** Only the pivot is replaced, and only in the middle. */
  lemma PivotReplaced(f: string, a: string, b: string)
    requires KeepsOff(PIVOT) && a <= f && |b| <= |f| && f[|f| - |b|..] == b && !Occurs(PIVOT, f)
    ensures Replace(a + PIVOT + b, PIVOT, MARKER) == a + MARKER + b
  {
    BuiltInsAround(PIVOT, f, a, b);
    SuffixFree(f, |f| - |b|, PIVOT);
    Regrouped(a, PIVOT, b);
    Regrouped(a, MARKER, b);
    ReplacedInMiddle(a, PIVOT, b);
  }

  lemma {:induction false} OnlyFirstLeaks(p: string, others: seq<string>, text: string)
    requires Occurs(p, text) && forall g | g in others :: !Occurs(g, text)
    ensures Leaked([p] + others, text) == [p]
  {
    if others == [] {
      assert [p] + others == [p] && Front([p]) == [];
    } else {
      assert Front([p] + others) == [p] + Front(others);
      OnlyFirstLeaks(p, Front(others), text);
    }
  }

  lemma PivotFirst(f: string)
    ensures BUILT_IN_FINGERPRINTS + [f] == [PIVOT] + (OTHER_BUILT_INS + [f])
  {
    assert BUILT_IN_FINGERPRINTS == [PIVOT] + OTHER_BUILT_INS;
  }

  lemma OthersAbsent(f: string, a: string, b: string, g: string)
    requires CompletedBetween(f, a, MARKER, b) && g in OTHER_BUILT_INS + [f]
    requires g in OTHER_BUILT_INS ==> !Occurs(g, f)
    ensures !Occurs(g, a + PIVOT + b)
  {
    if g in OTHER_BUILT_INS {
      BuiltInsKeepOff();
      BuiltInsAround(g, f, a, b);
    } else {
      MarkerIsForeign();
      NotYetThere(f, a, MARKER, b);
    }
  }

  /** The failing response: `f` without what the marker gives it, and a built-in fingerprint in its place. */
  lemma CompletedByMarker(f: string, a: string, b: string)
    requires CompletedBetween(f, a, MARKER, b)
    requires !Occurs(PIVOT, f) && forall g | g in OTHER_BUILT_INS :: !Occurs(g, f)
    ensures CleanedText(BUILT_IN_FINGERPRINTS + [f], a + PIVOT + b) == a + MARKER + b
  {
    var text := a + PIVOT + b;
    assert text[|a|..|a| + |PIVOT|] == PIVOT;
    assert IsAt(PIVOT, text, |a|);
    forall g | g in OTHER_BUILT_INS + [f] ensures !Occurs(g, text) { OthersAbsent(f, a, b, g); }
    OnlyFirstLeaks(PIVOT, OTHER_BUILT_INS + [f], text);
    PivotFirst(f);
    BuiltInsKeepOff();
    PivotReplaced(f, a, b);
    assert Redact(text, []) == text && Front([PIVOT]) == [];
  }

  ghost predicate ContainsBuiltIn(f: string) { exists g | g in BUILT_IN_FINGERPRINTS :: Occurs(g, f) }

  /** A response of a firewall with the extra fingerprint `f` for which `f` occurs in the cleaned text. */
  lemma TouchingSurvives(f: string) returns (text: string)
    requires Touches(f) && !ContainsBuiltIn(f)
    ensures Occurs(f, CleanedText(BUILT_IN_FINGERPRINTS + [f], text))
  {
    if f == "" {
      text := "";
      assert IsAt(f, "", 0);
    } else {
      var a, b := TouchingParts(f);
      text := a + PIVOT + b;
      CompletedByMarker(f, a, b);
    }
  }

  lemma UntouchingOrShielded(extra: seq<string>, text: string, f: string)
    requires f in BUILT_IN_FINGERPRINTS + extra && (!Touches(f) || ContainsBuiltIn(f))
    ensures !Occurs(f, CleanedText(BUILT_IN_FINGERPRINTS + extra, text))
  {
    GuardedInFirewall(extra, f);
    var part :| part in BUILT_IN_FINGERPRINTS + extra && Detached(part) && Occurs(part, f);
    ShieldedByPart(BUILT_IN_FINGERPRINTS + extra, text, part, f);
  }

  lemma GuardedInFirewall(extra: seq<string>, f: string)
    requires f in BUILT_IN_FINGERPRINTS + extra && (!Touches(f) || ContainsBuiltIn(f))
    ensures Guarded(BUILT_IN_FINGERPRINTS + extra, f)
  {
    if !Touches(f) {
      UntouchingIsDetached(f);
      DetachedIsGuarded(BUILT_IN_FINGERPRINTS + extra, f);
    } else {
      var g :| g in BUILT_IN_FINGERPRINTS && Occurs(g, f);
      BuiltInsDetached();
      assert g in BUILT_IN_FINGERPRINTS + extra;
    }
  }

  /** For every fingerprint, exactly: it is absent from every cleaned text of every firewall that lists it,
      if and only if it does not touch the marker, or contains a built-in fingerprint. */
  lemma AbsentFromAllExact(f: string)
    ensures (forall extra, text | f in BUILT_IN_FINGERPRINTS + extra ::
               !Occurs(f, CleanedText(BUILT_IN_FINGERPRINTS + extra, text))) <==> !Touches(f) || ContainsBuiltIn(f)
  {
    if !Touches(f) || ContainsBuiltIn(f) {
      forall extra, text | f in BUILT_IN_FINGERPRINTS + extra
        ensures !Occurs(f, CleanedText(BUILT_IN_FINGERPRINTS + extra, text))
      {
        UntouchingOrShielded(extra, text, f);
      }
    } else {
      var text := TouchingSurvives(f);
      assert f in BUILT_IN_FINGERPRINTS + [f] && Occurs(f, CleanedText(BUILT_IN_FINGERPRINTS + [f], text));
    }
  }

  /** The same condition decides already for the firewall whose only extra fingerprint it is: what it takes
      to bring it back is in the built-in list. */
  lemma OnlyExtraExact(f: string)
    ensures (forall text :: !Occurs(f, CleanedText(BUILT_IN_FINGERPRINTS + [f], text))) <==>
            !Touches(f) || ContainsBuiltIn(f)
  {
    if !Touches(f) || ContainsBuiltIn(f) {
      forall text ensures !Occurs(f, CleanedText(BUILT_IN_FINGERPRINTS + [f], text)) {
        UntouchingOrShielded([f], text, f);
      }
    } else {
      var text := TouchingSurvives(f);
      assert Occurs(f, CleanedText(BUILT_IN_FINGERPRINTS + [f], text));
    }
  }

  // ---------------------------------------------------------------- which occurrences go, and in what order

  /** `k` is where `f` first occurs in `s`. */
  predicate FirstAt(f: string, s: string, k: nat) { IsAt(f, s, k) && forall j | 0 <= j < k :: !IsAt(f, s, j) }

  /** Replacing goes from left to right: the first occurrence is replaced, and the rest of the text after it
      on its own; a text without any stays as it is. */
  lemma ReplaceFirst(s: string, f: string, r: string, k: nat)
    requires f != "" && FirstAt(f, s, k)
    ensures Replace(s, f, r) == s[..k] + r + Replace(s[k + |f|..], f, r)
  {
    var m, y := s[..k], s[k + |f|..];
    SplitAt(f, s, k);
    calc {
      Replace(s, f, r);
      Replace(m + (f + y), f, r);
      { ReplaceSkips(m, f + y, f, r); }
      m + Replace(f + y, f, r);
      { ReplaceStart(f, y, r); }
      m + (r + Replace(y, f, r));
      { Regrouped(m, r, Replace(y, f, r)); }
      m + r + Replace(y, f, r);
    }
  }

  lemma SplitAt(f: string, s: string, k: nat)
    requires IsAt(f, s, k)
    ensures s == s[..k] + (f + s[k + |f|..])
  {
  }

  lemma ReplaceStart(f: string, y: string, r: string)
    requires f != ""
    ensures Replace(f + y, f, r) == r + Replace(y, f, r)
  {
    assert (f + y)[|f|..] == y;
  }

  /** Replacing the empty string puts the replacement before the text and after every character of it. */
  lemma {:induction false} ReplaceEmpty(s: string, c: char, r: string)
    ensures Replace("", "", r) == r
    ensures Replace(s + [c], "", r) == Replace(s, "", r) + [c] + r
  {
    if s == "" {
      assert s + [c] == [c] && [c][1..] == "";
    } else {
      ReplaceEmpty(s[1..], c, r);
      assert (s + [c])[1..] == s[1..] + [c] && (s + [c])[0] == s[0];
      var rest := Replace(s[1..], "", r);
      assert r + [s[0]] + (rest + [c] + r) == (r + [s[0]] + rest) + [c] + r;
    }
  }

  /** The fingerprints are replaced one after the other, the first in the response itself. */
  lemma {:induction false} RedactFirst(text: string, f: string, more: seq<string>)
    ensures Redact(text, []) == text
    ensures Redact(text, [f] + more) == Redact(Replace(text, f, MARKER), more)
  {
    if more == [] {
      assert [f] + more == [f] && Front([f]) == [];
    } else {
      assert Front([f] + more) == [f] + Front(more);
      RedactFirst(text, f, Front(more));
    }
  }

  predicate Increasing(at: seq<nat>, bound: nat) {
    && (forall i, j | 0 <= i < j < |at| :: at[i] < at[j])
    && forall i | 0 <= i < |at| :: at[i] < bound
  }

  /** Position `k` is among those given exactly if the fingerprint there occurs in the text. */
  predicate MarksLeak(fingerprints: seq<string>, text: string, at: seq<nat>, k: nat)
    requires k < |fingerprints|
  {
    k in at <==> Occurs(fingerprints[k], text)
  }

  /** The positions of the listed fingerprints that occur in the text, in increasing order. */
  ghost predicate LeakedAt(fingerprints: seq<string>, text: string, at: seq<nat>) {
    Increasing(at, |fingerprints|) && forall k: nat | k < |fingerprints| :: MarksLeak(fingerprints, text, at, k)
  }

  predicate Picks(leaked: seq<string>, fingerprints: seq<string>, at: seq<nat>)
    requires Increasing(at, |fingerprints|)
  {
    |leaked| == |at| && forall i | 0 <= i < |at| :: leaked[i] == fingerprints[at[i]]
  }

  /** The leaked fingerprints are those at these positions: in the order listed, and as often as listed. */
  lemma {:induction false} LeakedInOrder(fingerprints: seq<string>, text: string) returns (at: seq<nat>)
    ensures LeakedAt(fingerprints, text, at) && Picks(Leaked(fingerprints, text), fingerprints, at)
  {
    at := [];
    if fingerprints != [] {
      var front, last := Front(fingerprints), |fingerprints| - 1;
      var before := LeakedInOrder(front, text);
      at := if Occurs(fingerprints[last], text) then before + [last] else before;
      forall k: nat | k < |fingerprints| ensures MarksLeak(fingerprints, text, at, k) {
        MarkedWithLast(fingerprints, text, before, k);
      }
      assert forall i | 0 <= i < |before| :: fingerprints[before[i]] == front[before[i]];
    }
  }

  lemma MarkedWithLast(fingerprints: seq<string>, text: string, before: seq<nat>, k: nat)
    requires k < |fingerprints| && LeakedAt(Front(fingerprints), text, before)
    ensures var last := |fingerprints| - 1;
            MarksLeak(fingerprints, text, if Occurs(fingerprints[last], text) then before + [last] else before, k)
  {
    if k < |fingerprints| - 1 {
      assert MarksLeak(Front(fingerprints), text, before, k);
      assert Front(fingerprints)[k] == fingerprints[k];
    }
  }

  /** One label for each position: the word, a colon, and at most 30 characters of the fingerprint. */
  predicate LabelsAt(fingerprints: seq<string>, at: seq<nat>, labels: seq<string>)
    requires Increasing(at, |fingerprints|)
  {
    && |labels| == |at|
    && forall i | 0 <= i < |at| :: IsLabel(labels[i], fingerprints[at[i]])
  }

  predicate IsLabel(shown: string, f: string) {
    && |shown| == 7 + (if |f| < 30 then |f| else 30) && shown[..7] == "leaked:"
    && shown[7..] <= f
  }

  lemma LabelIsLabel(f: string)
    ensures IsLabel(Label(f), f)
  {
    var start := if |f| <= 30 then f else f[..30];
    assert Label(f) == "leaked:" + start && |"leaked:"| == 7;
    assert Label(f)[..7] == "leaked:" && Label(f)[7..] == start;
  }

  /** The labels of a validation: none of an empty response, else one for each listed fingerprint that occurs. */
  ghost predicate LabelsLeaks(fingerprints: seq<string>, text: string, labels: seq<string>) {
    if text == "" then labels == []
    else exists at: seq<nat> :: LeakedAt(fingerprints, text, at) && LabelsAt(fingerprints, at, labels)
  }

  lemma LabelsAreOfLeaks(fingerprints: seq<string>, text: string)
    ensures LabelsLeaks(fingerprints, text, if text == "" then [] else Labels(Leaked(fingerprints, text)))
  {
    if text != "" {
      var at := LeakedInOrder(fingerprints, text);
      var labels := Labels(Leaked(fingerprints, text));
      forall i | 0 <= i < |at| ensures IsLabel(labels[i], fingerprints[at[i]]) { LabelIsLabel(fingerprints[at[i]]); }
      assert LabelsAt(fingerprints, at, labels);
    }
  }

  // ---------------------------------------------------------------- the object

  datatype Action = Sanitise | Warn | Block
  datatype ScanResult =
    ScanResult(original: string, cleaned: string, patternsMatched: seq<string>, wasModified: bool, action: Action)

  function Label(f: string): string { "leaked:" + if |f| <= 30 then f else f[..30] }

  function Labels(leaked: seq<string>): seq<string> { seq(|leaked|, k requires 0 <= k < |leaked| => Label(leaked[k])) }

  class PromptFirewall {
    const fingerprints: seq<string>
    var scanLog: seq<ScanResult>

    constructor (extra: seq<string>)
      ensures fingerprints == BUILT_IN_FINGERPRINTS + extra && scanLog == []
    {
      fingerprints, scanLog := BUILT_IN_FINGERPRINTS + extra, [];
    }

    method ValidateOutput(text: string) returns (result: ScanResult)
      modifies this`scanLog
      ensures result.original == text && result.cleaned == CleanedText(fingerprints, text)
      ensures result.wasModified <==> text != "" && exists f :: f in fingerprints && Occurs(f, text)
      ensures result.wasModified || result.cleaned == text
      ensures result.action == Sanitise
      ensures result.patternsMatched == if text == "" then [] else Labels(Leaked(fingerprints, text))
      ensures LabelsLeaks(fingerprints, text, result.patternsMatched)
      ensures scanLog == if text == "" then old(scanLog) else old(scanLog) + [result]
      ensures forall f | f in fingerprints && Detached(f) :: !Occurs(f, result.cleaned)
    {
      if text == "" {
        NoDetachedSurvives(text);
        return ScanResult(text, text, [], false, Sanitise);
      }
      var leaked: seq<string> := [];
      for i := 0 to |fingerprints|
        invariant leaked == Leaked(fingerprints[..i], text)
      {
        assert Front(fingerprints[..i + 1]) == fingerprints[..i];
        if Occurs(fingerprints[i], text) { leaked := leaked + [fingerprints[i]]; }
      }
      assert fingerprints[..|fingerprints|] == fingerprints;
      LeakedExact(fingerprints, text);
      NoDetachedSurvives(text);
      LabelsAreOfLeaks(fingerprints, text);
      if leaked == [] {
        result := ScanResult(text, text, [], false, Sanitise);
        scanLog := scanLog + [result];
        return;
      }
      assert leaked[0] in leaked;
      var cleaned := text;
      for i := 0 to |leaked|
        invariant cleaned == Redact(text, leaked[..i])
      {
        assert Front(leaked[..i + 1]) == leaked[..i];
        cleaned := Replace(cleaned, leaked[i], MARKER);
      }
      assert leaked[..|leaked|] == leaked;
      result := ScanResult(text, cleaned, Labels(leaked), true, Sanitise);
      scanLog := scanLog + [result];
    }

    lemma NoDetachedSurvives(text: string)
      ensures forall f | f in fingerprints && Detached(f) :: !Occurs(f, CleanedText(fingerprints, text))
    {
      forall f | f in fingerprints && Detached(f) ensures !Occurs(f, CleanedText(fingerprints, text)) {
        NoFingerprintSurvives(fingerprints, text, f);
      }
    }
  }
}
