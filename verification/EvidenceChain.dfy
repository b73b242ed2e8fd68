/**
 The chain of evidence packs of one run: how a build links to the pack before it, what verifying one
 pack or the whole chain reports, and what a chain that passes guarantees.
 */
module EvidenceChain {
  import opened Common

  type Time = nat
  type Digest = nat
  type Signature = nat

  /** The canonical digest as a free constructor, hence injective. */
  datatype PackHash = Canonical(manifest: Digest, previous: Option<PackHash>, signature: Option<Signature>)

  /** Packs from before chaining was introduced have no pack hash. */
  datatype Pack = Pack(manifest: Digest, signature: Option<Signature>, packHash: Option<PackHash>,
                       previous: Option<PackHash>, createdAt: Time)

  /** The newest pack created before a time. */
  function NewestBefore(packs: seq<Pack>, t: Time): Option<Pack> {
    if packs == [] then None
    else
      var last, rest := packs[|packs| - 1], NewestBefore(packs[..|packs| - 1], t);
      if last.createdAt >= t || (rest.Some? && rest.value.createdAt > last.createdAt) then rest else Some(last)
  }

  function HashOf(p: Option<Pack>): Option<PackHash> {
    if p.None? then None else p.value.packHash
  }

  function Build(packs: seq<Pack>, manifest: Digest, signature: Option<Signature>, now: Time): seq<Pack> {
    var previous := HashOf(NewestBefore(packs, now));
    packs + [Pack(manifest, signature, Some(Canonical(manifest, previous, signature)), previous, now)]
  }

  datatype Error = PredecessorMismatch | HashMismatch

  /** The chain part of verifying one pack. */
  function ChainErrors(packs: seq<Pack>, p: Pack): seq<Error> {
    if p.packHash.None? then []
    else
      (if p.previous != HashOf(NewestBefore(packs, p.createdAt)) then [PredecessorMismatch] else []) +
      (if p.packHash.value != Canonical(p.manifest, p.previous, p.signature) then [HashMismatch] else [])
  }

  predicate ChainValid(packs: seq<Pack>, p: Pack) {
    if p.packHash.None? then NewestBefore(packs, p.createdAt).None? else ChainErrors(packs, p) == []
  }

  function Tagged(n: nat, errors: seq<Error>): (r: seq<(nat, Error)>)
    ensures |r| == |errors|
  {
    if errors == [] then [] else Tagged(n, errors[..|errors| - 1]) + [(n, errors[|errors| - 1])]
  }

  /** All reported errors, each with the number of its pack. */
  function Gather(reports: seq<seq<Error>>): seq<(nat, Error)> {
    if reports == [] then []
    else Gather(reports[..|reports| - 1]) + Tagged(|reports| - 1, reports[|reports| - 1])
  }

  lemma {:induction false} NothingGathered(reports: seq<seq<Error>>)
    ensures Gather(reports) == [] <==> forall i :: 0 <= i < |reports| ==> reports[i] == []
  {
    if reports != [] {
      var n := |reports| - 1;
      NothingGathered(reports[..n]);
      assert Gather(reports) == [] <==> Gather(reports[..n]) == [] && reports[n] == [];
    }
  }

  lemma GatherOneMore(reports: seq<seq<Error>>, n: nat)
    requires n < |reports|
    ensures Gather(reports[..n + 1]) == Gather(reports[..n]) + Tagged(n, reports[n])
  {
    assert reports[..n + 1][..n] == reports[..n];
  }

  function Reports(packs: seq<Pack>): (r: seq<seq<Error>>)
    ensures |r| == |packs| && forall i :: 0 <= i < |packs| ==> r[i] == ChainErrors(packs, packs[i])
  {
    seq(|packs|, i requires 0 <= i < |packs| => ChainErrors(packs, packs[i]))
  }

  /** Verifying the chain gathers the errors of every pack. */
  method VerifyChain(packs: seq<Pack>) returns (errors: seq<(nat, Error)>, chainValid: bool)
    ensures errors == Gather(Reports(packs)) && chainValid == (errors == [])
  {
    errors := [];
    ghost var reports := Reports(packs);
    for n := 0 to |packs|
      invariant errors == Gather(reports[..n])
    {
      var found := ChainErrors(packs, packs[n]);
      GatherOneMore(reports, n);
      errors := errors + Tagged(n, found);
    }
    assert reports[..|packs|] == reports;
    chainValid := errors == [];
  }

  // ----- predecessors under increasing creation times

  ghost predicate Increasing(packs: seq<Pack>) {
    forall i, j :: 0 <= i < j < |packs| ==> packs[i].createdAt < packs[j].createdAt
  }

  lemma {:induction false} NewestBeforeIsPredecessor(packs: seq<Pack>, i: nat, t: Time)
    requires Increasing(packs) && i <= |packs|
    requires (forall j :: 0 <= j < i ==> packs[j].createdAt < t) &&
             (forall j :: i <= j < |packs| ==> packs[j].createdAt >= t)
    ensures NewestBefore(packs, t) == if i == 0 then None else Some(packs[i - 1])
  {
    if packs != [] {
      var n := |packs| - 1;
      if i == |packs| {
        NewestBeforeIsPredecessor(packs[..n], n, t);
      } else {
        NewestBeforeIsPredecessor(packs[..n], i, t);
      }
    }
  }

  function HashBefore(packs: seq<Pack>, i: nat): Option<PackHash>
    requires i <= |packs|
  {
    if i == 0 then None else packs[i - 1].packHash
  }

  lemma PredecessorOf(packs: seq<Pack>, i: nat)
    requires Increasing(packs) && i < |packs|
    ensures HashOf(NewestBefore(packs, packs[i].createdAt)) == HashBefore(packs, i)
    ensures NewestBefore(packs, packs[i].createdAt).None? <==> i == 0
  {
    NewestBeforeIsPredecessor(packs, i, packs[i].createdAt);
  }

  /** A pack that carries a hash is linked when it names the hash just before it and hashes its own fields. */
  predicate Linked(packs: seq<Pack>, i: nat)
    requires i < |packs|
  {
    packs[i].packHash.Some? ==>
      packs[i].previous == HashBefore(packs, i) &&
      packs[i].packHash.value == Canonical(packs[i].manifest, packs[i].previous, packs[i].signature)
  }

  lemma LinkedIffNoErrors(packs: seq<Pack>, i: nat)
    requires Increasing(packs) && i < |packs|
    ensures ChainErrors(packs, packs[i]) == [] <==> Linked(packs, i)
  {
    PredecessorOf(packs, i);
  }

  ghost predicate AllLinked(packs: seq<Pack>) {
    forall i {:trigger Linked(packs, i)} :: 0 <= i < |packs| ==> Linked(packs, i)
  }

  /** Under increasing creation times, the chain check passes exactly when every pack is linked. */
  lemma CheckPassesIffLinked(packs: seq<Pack>)
    requires Increasing(packs)
    ensures Gather(Reports(packs)) == [] <==> AllLinked(packs)
  {
    var reports := Reports(packs);
    NothingGathered(reports);
    forall i | 0 <= i < |packs| ensures reports[i] == [] <==> Linked(packs, i) {
      LinkedIffNoErrors(packs, i);
    }
  }

  // ----- build sequences pass

  datatype Order = Order(manifest: Digest, signature: Option<Signature>, delay: nat)

  /** Builds one after the other, on a clock that never shows the same time twice. */
  function BuildAll(start: seq<Pack>, now: Time, orders: seq<Order>): (seq<Pack>, Time) {
    if orders == [] then (start, now)
    else BuildNext(BuildAll(start, now, orders[..|orders| - 1]), orders[|orders| - 1])
  }

  function BuildNext(built: (seq<Pack>, Time), o: Order): (seq<Pack>, Time) {
    (Build(built.0, o.manifest, o.signature, built.1 + 1 + o.delay), built.1 + 1 + o.delay)
  }

  ghost predicate Sound(packs: seq<Pack>, now: Time) {
    Increasing(packs) && AllLinked(packs) && forall i :: 0 <= i < |packs| ==> packs[i].createdAt <= now
  }

  lemma BuildKeepsSound(built: (seq<Pack>, Time), o: Order)
    requires Sound(built.0, built.1)
    ensures var r := BuildNext(built, o); Sound(r.0, r.1) && |r.0| == |built.0| + 1
  {
    var packs, r, now := built.0, BuildNext(built, o).0, built.1 + 1 + o.delay;
    NewestBeforeIsPredecessor(packs, |packs|, now);
    forall i | 0 <= i < |r| ensures Linked(r, i) {
      if i < |packs| {
        assert Linked(packs, i);
      }
    }
  }

  /** Packs built after any packs of the older kind pass the chain check, whatever their number. */
  lemma BuildsPass(legacy: seq<Pack>, now: Time, orders: seq<Order>)
    requires Increasing(legacy) && forall i :: 0 <= i < |legacy| ==>
             legacy[i].packHash.None? && legacy[i].createdAt <= now
    ensures var packs := BuildAll(legacy, now, orders).0; Gather(Reports(packs)) == [] && |packs| == |legacy| + |orders|
  {
    BuildsAreSound(legacy, now, orders);
    CheckPassesIffLinked(BuildAll(legacy, now, orders).0);
  }

  lemma LegacyIsLinked(legacy: seq<Pack>)
    requires forall i :: 0 <= i < |legacy| ==> legacy[i].packHash.None?
    ensures AllLinked(legacy)
  {
  }

  lemma {:induction false} BuildsAreSound(legacy: seq<Pack>, now: Time, orders: seq<Order>)
    requires Increasing(legacy) && forall i :: 0 <= i < |legacy| ==>
             legacy[i].packHash.None? && legacy[i].createdAt <= now
    ensures var r := BuildAll(legacy, now, orders); Sound(r.0, r.1) && |r.0| == |legacy| + |orders|
  {
    if orders != [] {
      var n := |orders| - 1;
      BuildsAreSound(legacy, now, orders[..n]);
      BuildKeepsSound(BuildAll(legacy, now, orders[..n]), orders[n]);
    } else {
      LegacyIsLinked(legacy);
    }
  }

  // ----- what passing guarantees

  ghost predicate AllHashed(packs: seq<Pack>) {
    forall i :: 0 <= i < |packs| ==> packs[i].packHash.Some?
  }

  ghost predicate SameFields(a: Pack, b: Pack) {
    a.manifest == b.manifest && a.signature == b.signature && a.packHash == b.packHash && a.previous == b.previous
  }

  lemma {:induction false} LinkedChainsAgree(a: seq<Pack>, m: nat, b: seq<Pack>, n: nat)
    requires AllHashed(a) && AllHashed(b) && m <= |a| && n <= |b|
    requires AllLinked(a) && AllLinked(b)
    requires HashBefore(a, m) == HashBefore(b, n)
    ensures m == n && forall i :: 0 <= i < m ==> SameFields(a[i], b[i])
  {
    if m > 0 && n > 0 {
      assert Linked(a, m - 1) && Linked(b, n - 1);
      LinkedChainsAgree(a, m - 1, b, n - 1);
    }
  }

  /**
   Two chains that pass verification and end in the same pack hash have the same length, and agree on
   every hashed field of every pack.
   */
  lemma SameHeadSameChain(a: seq<Pack>, b: seq<Pack>)
    requires Increasing(a) && Increasing(b) && AllHashed(a) && AllHashed(b)
    requires Gather(Reports(a)) == [] && Gather(Reports(b)) == [] && HashBefore(a, |a|) == HashBefore(b, |b|)
    ensures |a| == |b| && forall i :: 0 <= i < |a| ==> SameFields(a[i], b[i])
  {
    CheckPassesIffLinked(a);
    CheckPassesIffLinked(b);
    LinkedChainsAgree(a, |a|, b, |b|);
  }

  predicate Valid(packs: seq<Pack>, i: nat)
    requires i < |packs|
  {
    ChainValid(packs, packs[i])
  }

  ghost predicate AllValid(packs: seq<Pack>) {
    forall i {:trigger Valid(packs, i)} :: 0 <= i < |packs| ==> Valid(packs, i)
  }

  ghost predicate LateLegacy(packs: seq<Pack>) {
    exists i :: 0 < i < |packs| && packs[i].packHash.None?
  }

  lemma ValidIff(packs: seq<Pack>, i: nat)
    requires Increasing(packs) && i < |packs|
    ensures Valid(packs, i) <==> Linked(packs, i) && (packs[i].packHash.None? ==> i == 0)
  {
    PredecessorOf(packs, i);
    LinkedIffNoErrors(packs, i);
  }

  lemma AllValidIff(packs: seq<Pack>)
    requires Increasing(packs)
    ensures AllValid(packs) <==> AllLinked(packs) && !LateLegacy(packs)
  {
    forall i | 0 <= i < |packs| ensures Valid(packs, i) <==> Linked(packs, i) && (packs[i].packHash.None? ==> i == 0) {
      ValidIff(packs, i);
    }
  }

  /**
   The verdict on the chain and the verdicts on its packs agree exactly when no pack without a hash
   follows another pack, or some other pack is in error.
   */
  lemma ChainVerdictAgrees(packs: seq<Pack>)
    requires Increasing(packs)
    ensures (Gather(Reports(packs)) == [] <==> AllValid(packs)) <==> (!LateLegacy(packs) || !AllLinked(packs))
  {
    CheckPassesIffLinked(packs);
    AllValidIff(packs);
  }

  /** Two packs without a hash: the second is judged invalid on its own, and the chain valid. */
  lemma ValidChainOverInvalidPack()
    ensures var packs := [Pack(0, None, None, None, 1), Pack(0, None, None, None, 2)];
            Gather(Reports(packs)) == [] && !Valid(packs, 1)
  {
    var packs := [Pack(0, None, None, None, 1), Pack(0, None, None, None, 2)];
    assert Increasing(packs);
    LegacyIsLinked(packs);
    CheckPassesIffLinked(packs);
    ValidIff(packs, 1);
  }
}
