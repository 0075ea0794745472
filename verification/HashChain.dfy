/** The hash-chained audit store of `packages/audit-api/src/lintel/audit_api/hash_chain.py`.

    The content hash is an arbitrary function of everything in an entry but its `previous_hash`; where a
    claim needs it to be free of collisions it says so. */
module HashChain {
  import opened Common

  const GENESIS_HASH := "0000000000000000000000000000000000000000000000000000000000000000"

  datatype Content = Content(entryId: string, actorId: string, actorType: string, action: string,
                             resourceType: string, resourceId: string, details: string, timestamp: string)
  datatype Entry = Entry(content: Content, previousHash: string)
  datatype Verification = Verification(valid: bool, entriesChecked: nat, brokenAt: Option<string>)

  type Hash = Content -> string

  ghost predicate Injective(hash: Hash) {
    forall a, b :: hash(a) == hash(b) ==> a == b
  }

  /** The hash the next entry must carry. */
  function Tip(hash: Hash, chain: seq<Entry>): string {
    if chain == [] then GENESIS_HASH else hash(Last(chain).content)
  }

  predicate LinkHolds(hash: Hash, chain: seq<Entry>, k: nat)
    requires k < |chain|
  {
    chain[k].previousHash == if k == 0 then GENESIS_HASH else hash(chain[k - 1].content)
  }

  predicate Linked(hash: Hash, chain: seq<Entry>) {
    forall k | 0 <= k < |chain| :: LinkHolds(hash, chain, k)
  }

  function Append(hash: Hash, chain: seq<Entry>, content: Content): seq<Entry> {
    chain + [Entry(content, Tip(hash, chain))]
  }

  /** The inner store: the last chained entry with each id. */
  function Index(chain: seq<Entry>): map<string, Entry> {
    if chain == [] then map[] else Index(Front(chain))[Last(chain).content.entryId := Last(chain)]
  }

  class HashChainAuditStore {
    const hash: Hash
    var inner: map<string, Entry>
    var chain: seq<Entry>
    var lastHash: string

    /** What every use of the store keeps. */
    ghost predicate Valid()
      reads this
    {
      Linked(hash, chain) && lastHash == Tip(hash, chain) && inner == Index(chain)
    }

    constructor (hash: Hash)
      ensures Valid() && chain == [] && this.hash == hash
    {
      this.hash, inner, chain, lastHash := hash, map[], [], GENESIS_HASH;
    }

    method Add(content: Content)
      requires Valid()
      modifies this
      ensures Valid() && chain == Append(hash, old(chain), content)
      ensures |chain| == |old(chain)| + 1 && old(chain) <= chain && Last(chain).content == content
      ensures Last(chain).previousHash == if old(chain) == [] then GENESIS_HASH else hash(Last(old(chain)).content)
    {
      var chained := Entry(content, lastHash);
      AppendLinked(hash, chain, content);
      assert Front(chain + [chained]) == chain;
      inner := inner[content.entryId := chained];
      chain := chain + [chained];
      lastHash := hash(chained.content);
    }

    method Get(entryId: string) returns (found: Option<Entry>)
      requires Valid()
      ensures match found
              case Some(e) => exists k | 0 <= k < |chain| :: chain[k] == e && LastWithId(chain, k, entryId)
              case None => forall k | 0 <= k < |chain| :: chain[k].content.entryId != entryId
    {
      IndexExact(chain, entryId);
      if entryId in inner { return Some(inner[entryId]); }
      return None;
    }

    /** Needs no invariant: this is what is run when the chain may have been tampered with. */
    method VerifyChain() returns (v: Verification)
      ensures v.valid <==> Linked(hash, chain)
      ensures v.entriesChecked == |chain|
      ensures v.valid ==> v.brokenAt == None
      ensures !v.valid ==>
                exists k | 0 <= k < |chain| ::
                  v.brokenAt == Some(chain[k].content.entryId) && !LinkHolds(hash, chain, k) &&
                  forall j | 0 <= j < k :: LinkHolds(hash, chain, j)
    {
      if chain == [] { return Verification(true, 0, None); }
      var previous := GENESIS_HASH;
      for k := 0 to |chain|
        invariant previous == if k == 0 then GENESIS_HASH else hash(chain[k - 1].content)
        invariant forall j | 0 <= j < k :: LinkHolds(hash, chain, j)
      {
        if chain[k].previousHash != previous {
          assert !LinkHolds(hash, chain, k);
          return Verification(false, |chain|, Some(chain[k].content.entryId));
        }
        previous := hash(chain[k].content);
      }
      return Verification(true, |chain|, None);
    }
  }

  predicate LastWithId(chain: seq<Entry>, k: nat, entryId: string) {
    k < |chain| && chain[k].content.entryId == entryId && forall j | k < j < |chain| ::
        chain[j].content.entryId != entryId
  }

  lemma {:induction false} IndexExact(chain: seq<Entry>, entryId: string)
    ensures entryId in Index(chain) ==> exists k | 0 <= k < |chain| ::
        chain[k] == Index(chain)[entryId] && LastWithId(chain, k, entryId)
    ensures entryId !in Index(chain) ==> forall k | 0 <= k < |chain| :: chain[k].content.entryId != entryId
  {
    if chain != [] {
      var last := |chain| - 1;
      IndexExact(Front(chain), entryId);
      if chain[last].content.entryId == entryId {
        assert LastWithId(chain, last, entryId);
      } else if entryId in Index(chain) {
        var k :| 0 <= k < last && Front(chain)[k] == Index(chain)[entryId] && LastWithId(Front(chain), k, entryId);
        assert chain[k] == Front(chain)[k] && LastWithId(chain, k, entryId);
      } else {
        assert forall k | 0 <= k < last :: chain[k] == Front(chain)[k];
      }
    }
  }

  lemma AppendLinked(hash: Hash, chain: seq<Entry>, content: Content)
    requires Linked(hash, chain)
    ensures Linked(hash, Append(hash, chain, content))
  {
    var longer := Append(hash, chain, content);
    forall k | 0 <= k < |longer| ensures LinkHolds(hash, longer, k) {
      assert k < |chain| ==> LinkHolds(hash, chain, k);
    }
  }

  // ---------------------------------------------------------------- what verification detects

  /** Two accepted chains of the same length with the same links hold the same contents, except possibly
      in the last entry. */
  lemma AcceptedChainsAgree(hash: Hash, a: seq<Entry>, b: seq<Entry>)
    requires Injective(hash) && Linked(hash, a) && Linked(hash, b) && |a| == |b|
    requires forall k | 0 <= k < |a| :: a[k].previousHash == b[k].previousHash
    ensures forall k | 0 <= k < |a| - 1 :: a[k].content == b[k].content
  {
    forall k | 0 <= k < |a| - 1 ensures a[k].content == b[k].content {
      assert LinkHolds(hash, a, k + 1) && LinkHolds(hash, b, k + 1);
    }
  }

  /** Rewriting the content of one entry of an accepted chain, and nothing else, goes unnoticed exactly in
      the last entry. */
  lemma RewriteDetected(hash: Hash, chain: seq<Entry>, k: nat, content: Content)
    requires Injective(hash) && Linked(hash, chain) && k < |chain| && content != chain[k].content
    ensures Linked(hash, chain[k := chain[k].(content := content)]) <==> k == |chain| - 1
  {
    var forged := chain[k := chain[k].(content := content)];
    forall j | 0 <= j < |chain| ensures j != k + 1 ==> LinkHolds(hash, forged, j) {
      assert LinkHolds(hash, chain, j);
    }
    if k + 1 < |chain| {
      assert LinkHolds(hash, chain, k + 1);
      assert !LinkHolds(hash, forged, k + 1);
    }
  }

  function Forged(chain: seq<Entry>, k: nat, content: Content, link: string): (forged: seq<Entry>)
    requires k + 1 < |chain|
    ensures |forged| == |chain|
  {
    chain[k := chain[k].(content := content)][k + 1 := chain[k + 1].(previousHash := link)]
  }

  /** Since the hash leaves `previous_hash` out, one more write hides a rewrite anywhere: with the link after
      the rewritten entry set to `link`, the chain is accepted exactly if `link` is the hash of the new
      content; no assumption on the hash is needed, and no other entry has to change. */
  lemma RewriteWithLinkUnnoticed(hash: Hash, chain: seq<Entry>, k: nat, content: Content, link: string)
    requires Linked(hash, chain) && k + 1 < |chain|
    ensures Linked(hash, Forged(chain, k, content, link)) <==> link == hash(content)
  {
    var forged := Forged(chain, k, content, link);
    forall j | 0 <= j < |chain| && j != k + 1 ensures LinkHolds(hash, forged, j) {
      assert LinkHolds(hash, chain, j);
    }
    assert LinkHolds(hash, forged, k + 1) <==> link == hash(content);
  }

  /** The chain the store builds from the given contents. */
  function Built(hash: Hash, contents: seq<Content>): seq<Entry> {
    if contents == [] then [] else Append(hash, Built(hash, Front(contents)), Last(contents))
  }

  function Contents(chain: seq<Entry>): seq<Content> {
    seq(|chain|, k requires 0 <= k < |chain| => chain[k].content)
  }

  /** A chain is accepted exactly if it is the one the store would have built from the same contents, so a
      chain of other contents is accepted once its links are computed anew. */
  lemma {:induction false} AcceptedExactlyIfBuilt(hash: Hash, chain: seq<Entry>)
    ensures Linked(hash, chain) <==> chain == Built(hash, Contents(chain))
  {
    if chain != [] {
      var before, last := Front(chain), |chain| - 1;
      AcceptedExactlyIfBuilt(hash, before);
      assert Front(Contents(chain)) == Contents(before);
      LinkedSplits(hash, chain);
      assert chain == before + [chain[last]];
      var built := Built(hash, Contents(before));
      assert Built(hash, Contents(chain)) == built + [Entry(chain[last].content, Tip(hash, built))];
    }
  }

  lemma LinkedSplits(hash: Hash, chain: seq<Entry>)
    requires chain != []
    ensures Linked(hash, chain) <==> Linked(hash, Front(chain)) && Last(chain).previousHash == Tip(hash, Front(chain))
  {
    var before, last := Front(chain), |chain| - 1;
    assert LinkHolds(hash, chain, last) <==> Last(chain).previousHash == Tip(hash, before);
    if Linked(hash, chain) {
      forall k | 0 <= k < last ensures LinkHolds(hash, before, k) { assert LinkHolds(hash, chain, k); }
    }
    if Linked(hash, before) {
      forall k | 0 <= k < last ensures LinkHolds(hash, chain, k) { assert LinkHolds(hash, before, k); }
    }
  }

  /** Removing one entry of an accepted chain goes unnoticed exactly if it is the last one, or hashes to
      what the entry after it would have to carry anyway; no assumption on the hash is needed. */
  lemma RemovalDetected(hash: Hash, chain: seq<Entry>, k: nat)
    requires Linked(hash, chain) && k < |chain|
    ensures Linked(hash, chain[..k] + chain[k + 1..]) <==>
            k == |chain| - 1 || hash(chain[k].content) == Tip(hash, chain[..k])
  {
    var shorter := chain[..k] + chain[k + 1..];
    forall j | 0 <= j < |shorter| && j != k ensures LinkHolds(hash, shorter, j) {
      var i := if j < k then j else j + 1;
      assert LinkHolds(hash, chain, i);
      assert shorter[j] == chain[i] && (j > 0 ==> shorter[j - 1] == chain[i - 1]);
    }
    assert Tip(hash, chain[..k]) == if k == 0 then GENESIS_HASH else hash(chain[k - 1].content);
    if k < |shorter| {
      assert LinkHolds(hash, chain, k + 1);
      assert LinkHolds(hash, shorter, k) <==> hash(chain[k].content) == Tip(hash, chain[..k]);
    }
  }

  /** Cutting the end off an accepted chain always goes unnoticed. */
  lemma TruncationUnnoticed(hash: Hash, chain: seq<Entry>, n: nat)
    requires Linked(hash, chain) && n <= |chain|
    ensures Linked(hash, chain[..n])
  {
    forall k | 0 <= k < n ensures LinkHolds(hash, chain[..n], k) {
      assert LinkHolds(hash, chain, k);
    }
  }
}
