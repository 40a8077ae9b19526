/** The peers registry of a node (`this.peers` and the peers.json file it is
    saved to) and the merge `updatePeersDatabase` performs on it. */
module Registry {
  import opened Sequences

  /** The identifier `uuid3(URL, uuid3.URL)` a node derives from its URL. */
  type Uuid = string

  /** One `{UUID, URL}` entry of the registry. */
  datatype PeerRecord = PeerRecord(uuid: Uuid, url: string)

  /** `peers.some(peer => peer.UUID === id)`. */
  predicate HasUuid(peers: seq<PeerRecord>, id: Uuid): (r: bool)
    ensures r <==> exists i :: 0 <= i < |peers| && peers[i].uuid == id
    decreases |peers|
  {
    peers != [] && (peers[0].uuid == id || HasUuid(peers[1..], id))
  }

  /** No two records of the registry carry the same UUID. */
  predicate UniqueUuids(peers: seq<PeerRecord>)
  {
    forall i, j :: 0 <= i < j < |peers| ==> peers[i].uuid != peers[j].uuid
  }

  /** The registry after one step of the merge loop: `x` is pushed unless a
      record with its UUID is already there. */
  function AddIfUnseen(peers: seq<PeerRecord>, x: PeerRecord): (r: seq<PeerRecord>)
    ensures HasUuid(r, x.uuid)
    ensures |peers| <= |r| <= |peers| + 1 && r[..|peers|] == peers
    ensures |r| == |peers| + 1 <==> !HasUuid(peers, x.uuid)
    ensures UniqueUuids(peers) ==> UniqueUuids(r)
  {
    if HasUuid(peers, x.uuid) then peers
    else
      assert (peers + [x])[|peers|].uuid == x.uuid;
      peers + [x]
  }

  /** The registry after `data.forEach(x => { if (!this.peers.some(...)) this.peers.push(x) })`:
      the batch is folded in left to right, each record checked against the
      registry as it has grown so far. Existing records stay where they were. */
  function Merge(peers: seq<PeerRecord>, batch: seq<PeerRecord>): (r: seq<PeerRecord>)
    ensures |peers| <= |r| <= |peers| + |batch|
    ensures r[..|peers|] == peers
    decreases |batch|
  {
    if batch == [] then peers
    else
      var next := AddIfUnseen(peers, batch[0]);
      var r := Merge(next, batch[1..]);
      assert r[..|peers|] == r[..|next|][..|peers|];
      r
  }

  /** A UUID known before the merge is still known after it. */
  lemma KnownStaysKnown(peers: seq<PeerRecord>, batch: seq<PeerRecord>, id: Uuid)
    requires HasUuid(peers, id)
    ensures HasUuid(Merge(peers, batch), id)
  {
    var i :| 0 <= i < |peers| && peers[i].uuid == id;
    assert Merge(peers, batch)[i] == Merge(peers, batch)[..|peers|][i];
  }

  /** Only batch records whose UUID is absent from the registry are appended. */
  lemma {:induction false} MergeAddsOnlyUnseen(peers: seq<PeerRecord>, batch: seq<PeerRecord>)
    ensures var r := Merge(peers, batch);
      forall k :: |peers| <= k < |r| ==> r[k] in batch && !HasUuid(peers, r[k].uuid)
    decreases |batch|
  {
    if batch != [] {
      var next := AddIfUnseen(peers, batch[0]);
      MergeAddsOnlyUnseen(next, batch[1..]);
      var r := Merge(peers, batch);
      assert r == Merge(next, batch[1..]);
      assert batch == [batch[0]] + batch[1..];
      forall k | |peers| <= k < |r| ensures r[k] in batch && !HasUuid(peers, r[k].uuid) {
        if k < |next| {
          assert r[k] == r[..|next|][k] == next[k] == batch[0];
        } else {
          assert r[k] in batch[1..];
        }
      }
    }
  }

  /** After the merge every UUID of the batch is in the registry. */
  lemma {:induction false} MergeCoversBatch(peers: seq<PeerRecord>, batch: seq<PeerRecord>)
    ensures forall x :: x in batch ==> HasUuid(Merge(peers, batch), x.uuid)
    decreases |batch|
  {
    if batch != [] {
      var next := AddIfUnseen(peers, batch[0]);
      MergeCoversBatch(next, batch[1..]);
      if !HasUuid(peers, batch[0].uuid) {
        assert next[|peers|] == batch[0];
      }
      assert HasUuid(next, batch[0].uuid);
      KnownStaysKnown(next, batch[1..], batch[0].uuid);
      forall x | x in batch ensures HasUuid(Merge(peers, batch), x.uuid) {
        if x != batch[0] { assert x in batch[1..]; }
      }
    }
  }

  /** A batch whose UUIDs are all known already changes nothing. */
  lemma {:induction false} MergeOfKnown(peers: seq<PeerRecord>, batch: seq<PeerRecord>)
    requires forall x :: x in batch ==> HasUuid(peers, x.uuid)
    ensures Merge(peers, batch) == peers
    decreases |batch|
  {
    if batch != [] {
      assert batch[0] in batch;
      forall x | x in batch[1..] ensures HasUuid(peers, x.uuid) { assert x in batch; }
      MergeOfKnown(peers, batch[1..]);
    }
  }

  /** Merging the same batch a second time leaves the registry unchanged. */
  lemma MergeIdempotent(peers: seq<PeerRecord>, batch: seq<PeerRecord>)
    ensures Merge(Merge(peers, batch), batch) == Merge(peers, batch)
  {
    MergeCoversBatch(peers, batch);
    MergeOfKnown(Merge(peers, batch), batch);
  }

  /** Distinct UUIDs stay distinct, even when the batch repeats a UUID, since
      each record is checked against the registry as it has grown. */
  lemma {:induction false} MergeKeepsUuidsUnique(peers: seq<PeerRecord>, batch: seq<PeerRecord>)
    requires UniqueUuids(peers)
    ensures UniqueUuids(Merge(peers, batch))
    decreases |batch|
  {
    if batch != [] {
      var next := AddIfUnseen(peers, batch[0]);
      if !HasUuid(peers, batch[0].uuid) {
        forall i, j | 0 <= i < j < |next| ensures next[i].uuid != next[j].uuid {
          if j == |peers| {
            assert next[i] == peers[i];
          }
        }
      }
      MergeKeepsUuidsUnique(next, batch[1..]);
    }
  }

  /** The appended records come in batch order. */
  lemma {:induction false} MergeKeepsBatchOrder(peers: seq<PeerRecord>, batch: seq<PeerRecord>)
    ensures IsSubsequence(Merge(peers, batch)[|peers|..], batch)
    decreases |batch|
  {
    if batch != [] {
      var next := AddIfUnseen(peers, batch[0]);
      var r := Merge(peers, batch);
      MergeKeepsBatchOrder(next, batch[1..]);
      if HasUuid(peers, batch[0].uuid) {
        assert IsSubsequence(r[|peers|..], batch[1..]);
      } else {
        assert r[|peers|..][0] == r[..|next|][|peers|] == batch[0];
        assert r[|peers|..][1..] == r[|next|..];
      }
    }
  }

  /** The merge of a single record: the record is appended exactly when its
      UUID is new. */
  lemma MergeOne(peers: seq<PeerRecord>, x: PeerRecord)
    ensures Merge(peers, [x]) == if HasUuid(peers, x.uuid) then peers else peers + [x]
  {
    assert [x][1..] == [];
  }
}
