/**
 The mesh broker: enrollment, the table of connected peers, and its status. Then the sessions that
 run against it, as steps that interleave freely: hello, attach, read a frame, forward it, write, end.
 */
module Broker {
  import opened Wrappers

  type Address = string

  type MeshId = string

  datatype Member = Member(meshId: MeshId, memberId: string, address: Address, displayName: Option<string>)

  type Members = map<MeshId, map<Address, Member>>

  function Lookup(members: Members, mesh: MeshId, address: Address): Option<Member> {
    if mesh in members && address in members[mesh] then Some(members[mesh][address]) else None
  }

  /** `enroll`: a record already there is kept; otherwise one is made with the fresh id. */
  function Enrolled(members: Members, mesh: MeshId, address: Address, name: Option<string>, newId: string): Members {
    var inMesh := if mesh in members then members[mesh] else map[];
    if address in inMesh then members
    else members[mesh := inMesh[address := Member(mesh, newId, address, name)]]
  }

  lemma {:induction false} EnrollKeeps(members: Members, mesh: MeshId, address: Address, name: Option<string>, newId: string)
    ensures var after := Enrolled(members, mesh, address, name, newId);
            && Lookup(after, mesh, address).Some?
            && (forall m, a :: Lookup(members, m, a).Some? ==> Lookup(after, m, a) == Lookup(members, m, a))
            && (forall m, a :: Lookup(after, m, a).Some? && Lookup(members, m, a).None? ==> m == mesh && a == address)
  {
  }

  // ---------- status ----------

  function Connected(members: map<Address, Member>, peers: set<Address>): set<Address> {
    set a | a in members && a in peers
  }

  datatype MeshStatus = MeshStatus(meshId: MeshId, enrolled: nat, connected: nat)

  function StatusOf(members: Members, peers: set<Address>, m: MeshId): MeshStatus
    requires m in members
  {
    MeshStatus(m, |members[m]|, |Connected(members[m], peers)|)
  }

  /** Order of strings, character by character. */
  predicate Less(a: string, b: string) {
    b != "" && (a == "" || a[0] < b[0] || (a[0] == b[0] && Less(a[1..], b[1..])))
  }

  /** The first difference decides: a smaller character, or the end of the shorter string. */
  ghost predicate DiffersAt(a: string, b: string, i: nat) {
    && i <= |a| && i < |b| && a[..i] == b[..i]
    && (i < |a| ==> a[i] < b[i])
  }

  lemma {:induction false} LessMeans(a: string, b: string)
    ensures Less(a, b) <==> exists i: nat :: DiffersAt(a, b, i)
  {
    if b == "" {
    } else if a == "" {
      assert DiffersAt(a, b, 0);
    } else if a[0] == b[0] {
      LessMeans(a[1..], b[1..]);
      if i: nat :| DiffersAt(a[1..], b[1..], i) {
        assert a[..i + 1] == [a[0]] + a[1..][..i] && b[..i + 1] == [b[0]] + b[1..][..i];
        assert DiffersAt(a, b, i + 1);
      }
      if i: nat :| DiffersAt(a, b, i) {
        assert i > 0;
        assert a[1..][..i - 1] == a[..i][1..] && b[1..][..i - 1] == b[..i][1..];
        assert DiffersAt(a[1..], b[1..], i - 1);
      }
    } else {
      if a[0] < b[0] { assert DiffersAt(a, b, 0); }
      if i: nat :| DiffersAt(a, b, i) { assert i == 0 || a[..i][0] == b[..i][0]; }
    }
  }

  lemma {:induction false} LessTransitive(a: string, b: string, c: string)
    requires Less(a, b) && Less(b, c)
    ensures Less(a, c)
  {
    if a != "" && a[0] == b[0] == c[0] { LessTransitive(a[1..], b[1..], c[1..]); }
  }

  lemma {:induction false} LessTotal(a: string, b: string)
    ensures a == b || Less(a, b) || Less(b, a)
  {
    if a != "" && b != "" && a[0] == b[0] {
      LessTotal(a[1..], b[1..]);
      assert a == [a[0]] + a[1..] && b == [b[0]] + b[1..];
    }
  }

  ghost predicate Ascending(meshes: seq<MeshStatus>) {
    forall i, j :: 0 <= i < j < |meshes| ==> Less(meshes[i].meshId, meshes[j].meshId)
  }

  /** `meshes`, in ascending order of their ids, with one more put in its place. */
  function Inserted(meshes: seq<MeshStatus>, x: MeshStatus): (r: seq<MeshStatus>)
    ensures |r| == |meshes| + 1 && forall m :: m in r <==> m in meshes || m == x
  {
    if meshes == [] then [x]
    else if Less(x.meshId, meshes[0].meshId) then [x] + meshes
    else
      assert meshes == [meshes[0]] + meshes[1..];
      [meshes[0]] + Inserted(meshes[1..], x)
  }

  lemma {:induction false} InsertedAscends(meshes: seq<MeshStatus>, x: MeshStatus)
    requires Ascending(meshes) && forall i :: 0 <= i < |meshes| ==> meshes[i].meshId != x.meshId
    ensures Ascending(Inserted(meshes, x))
  {
    if meshes != [] {
      var head, tail := meshes[0], meshes[1..];
      if Less(x.meshId, head.meshId) {
        forall i | 0 <= i < |meshes| ensures Less(x.meshId, meshes[i].meshId) {
          if i > 0 { LessTransitive(x.meshId, head.meshId, meshes[i].meshId); }
        }
      } else {
        LessTotal(x.meshId, head.meshId);
        InsertedAscends(tail, x);
        var after := Inserted(tail, x);
        forall i | 0 <= i < |after| ensures Less(head.meshId, after[i].meshId) {
          assert after[i] in after;
        }
      }
    }
  }

  /** The per-mesh connected counts, summed. */
  ghost function SumConnected(members: Members, meshes: set<MeshId>, peers: set<Address>): nat
    requires meshes <= members.Keys
  {
    if meshes == {} then 0
    else
      var m :| m in meshes;
      |Connected(members[m], peers)| + SumConnected(members, meshes - {m}, peers)
  }

  lemma {:induction false} SizeOfUnion<T>(a: set<T>, b: set<T>)
    ensures |a + b| <= |a| + |b|
  {
    assert a + b == a + (b - a) && |a + (b - a)| == |a| + |b - a|;
    SubsetSize(b - a, b);
  }

  lemma {:induction false} SubsetSize<T>(a: set<T>, b: set<T>)
    requires a <= b
    ensures |a| <= |b|
  {
    if a != {} {
      var x :| x in a;
      SubsetSize(a - {x}, b - {x});
    }
  }

  /** If every connected address is enrolled in one of the meshes, the total is at most the sum of the counts. */
  lemma {:induction false} TotalAtMostSum(members: Members, meshes: set<MeshId>, peers: set<Address>)
    requires meshes <= members.Keys
    requires forall a :: a in peers ==> exists m :: m in meshes && a in members[m]
    ensures |peers| <= SumConnected(members, meshes, peers)
    decreases |meshes|
  {
    SumCovers(members, meshes, peers, peers);
  }

  lemma {:induction false} SumCovers(members: Members, meshes: set<MeshId>, peers: set<Address>, part: set<Address>)
    requires meshes <= members.Keys && part <= peers
    requires forall a :: a in part ==> exists m :: m in meshes && a in members[m]
    ensures |part| <= SumConnected(members, meshes, peers)
    decreases |meshes|
  {
    if meshes == {} {
      assert part == {};
    } else {
      var m :| m in meshes && SumConnected(members, meshes, peers) == |Connected(members[m], peers)| + SumConnected(members, meshes - {m}, peers);
      var here := Connected(members[m], peers);
      SumCovers(members, meshes - {m}, peers, part - here);
      SizeOfUnion(here, part - here);
      SubsetSize(part, here + (part - here));
    }
  }

  class BrokerState {
    var members: Members
    var peers: map<Address, nat>

    constructor ()
      ensures members == map[] && peers == map[]
    {
      members, peers := map[], map[];
    }

    method Enroll(mesh: MeshId, address: Address, name: Option<string>, newId: string) returns (record: Member)
      modifies this`members
      ensures members == Enrolled(old(members), mesh, address, name, newId)
      ensures Lookup(members, mesh, address) == Some(record)
      ensures Lookup(old(members), mesh, address).Some? ==> members == old(members)
    {
      if mesh !in members {
        members := members[mesh := map[]];
      }
      if address in members[mesh] {
        return members[mesh][address];
      }
      record := Member(mesh, newId, address, name);
      members := members[mesh := members[mesh][address := record]];
    }

    /** Register a connection's channel, giving back the one it replaces. */
    method AttachPeer(address: Address, channel: nat) returns (previous: Option<nat>)
      modifies this`peers
      ensures peers == old(peers)[address := channel]
      ensures previous == if address in old(peers) then Some(old(peers)[address]) else None
    {
      previous := if address in peers then Some(peers[address]) else None;
      peers := peers[address := channel];
    }

    /** Remove whatever channel is registered for the address. */
    method DetachPeer(address: Address)
      modifies this`peers
      ensures peers == old(peers) - {address}
    {
      peers := peers - {address};
    }

    /** Per-mesh counts, in ascending order of the mesh ids, and the totals. */
    method Status() returns (meshes: seq<MeshStatus>, totalMeshes: nat, totalConnected: nat)
      ensures Ascending(meshes) && forall x :: x in meshes <==> exists m :: m in members && x == StatusOf(members, peers.Keys, m)
      ensures forall x :: x in meshes ==>
                x.meshId in members && x.enrolled == |members[x.meshId]| && x.connected == |set a | a in members[x.meshId] && a in peers|
      ensures totalMeshes == |meshes| == |members| && totalConnected == |peers|
    {
      meshes := [];
      var left := members.Keys;
      while left != {}
        invariant left <= members.Keys && |meshes| + |left| == |members.Keys|
        invariant Ascending(meshes)
        invariant forall x :: x in meshes <==> exists m :: m in members && m !in left && x == StatusOf(members, peers.Keys, m)
        decreases left
      {
        var m :| m in left;
        forall i | 0 <= i < |meshes| ensures meshes[i].meshId != m {
          assert meshes[i] in meshes;
        }
        InsertedAscends(meshes, StatusOf(members, peers.Keys, m));
        meshes := Inserted(meshes, StatusOf(members, peers.Keys, m));
        left := left - {m};
      }
      assert |members.Keys| == |members|;
      totalMeshes, totalConnected := |meshes|, |peers|;
    }
  }
}
