/**
 The coordinator side of over-the-wire FROST co-signing: collect commitments, trim the signer set
 to the threshold, collect shares and attribute the signature.
 */
module CosignCoordinator {
  import opened Wrappers
  import opened Sets
  import opened Text
  import opened Roster

  /** A peer's answers; identifiers are the numbers their big-endian bytes write, None when undecodable. */
  datatype CommitReply = CommitReply(node: string, id: Option<nat>, commitment: Option<string>)
  datatype ShareReply = ShareReply(id: Option<nat>, share: Option<string>)

  /** A finished signature: the package it signs, the shares aggregated and the nodes credited. */
  datatype Attributed = Attributed(commitments: map<nat, string>, shares: map<nat, string>, names: seq<string>)

  predicate Readable(replies: seq<CommitReply>) {
    forall r :: r in replies ==> r.id.Some? && r.commitment.Some?
  }

  predicate SharesReadable(replies: seq<ShareReply>, signers: set<nat>) {
    forall r :: r in replies ==> r.id.Some? && (r.id.value in signers ==> r.share.Some?)
  }

  // ---------- the signer set ----------

  ghost function Ids(replies: seq<CommitReply>): set<nat>
    requires Readable(replies)
  {
    set r | r in replies :: r.id.value
  }

  function Max1(min: nat): nat {
    if min == 0 then 1 else min
  }

  /** `signers` is the local identifier plus the smallest others, `max(1, min)` in all. */
  ghost predicate Selection(ids: set<nat>, local: nat, min: nat, signers: set<nat>) {
    && local in signers && signers <= ids && |signers| == Max1(min)
    && forall i, j :: i in signers - {local} && j in ids - signers ==> i < j
  }

  lemma Below(ids: set<nat>, local: nat, min: nat, signers: set<nat>, i: nat, j: nat)
    requires Selection(ids, local, min, signers)
    requires i in signers && i != local && j in ids && j !in signers
    ensures i < j
  {
    assert i in signers - {local} && j in ids - signers;
  }

  /** The signer set is a function of who answered. */
  lemma SelectionUnique(ids: set<nat>, local: nat, min: nat, a: set<nat>, b: set<nat>)
    requires Selection(ids, local, min, a) && Selection(ids, local, min, b)
    ensures a == b
  {
    if a <= b {
      SubsetSize(a, b);
    } else if b <= a {
      SubsetSize(b, a);
    } else {
      var x :| x in a && x !in b;
      var y :| y in b && y !in a;
      Below(ids, local, min, a, x, y);
      Below(ids, local, min, b, y, x);
    }
  }

  // ---------- what the replies say ----------

  /** Commitments as collected: the local one first, each reply overwriting its identifier. */
  ghost function Commitments(local: nat, own: string, replies: seq<CommitReply>): map<nat, string>
    requires Readable(replies)
  {
    if replies == [] then map[local := own]
    else
      var r := replies[|replies| - 1];
      Commitments(local, own, replies[..|replies| - 1])[r.id.value := r.commitment.value]
  }

  ghost function NodeOf(replies: seq<CommitReply>): map<nat, string>
    requires Readable(replies)
  {
    if replies == [] then map[]
    else
      var r := replies[|replies| - 1];
      NodeOf(replies[..|replies| - 1])[r.id.value := r.node]
  }

  /** The keys are the local identifier and those that answered. */
  lemma {:induction false} CommitmentKeys(local: nat, own: string, replies: seq<CommitReply>)
    requires Readable(replies)
    ensures Commitments(local, own, replies).Keys == {local} + Ids(replies)
    ensures NodeOf(replies).Keys == Ids(replies)
  {
    if replies != [] {
      var init, r := replies[..|replies| - 1], replies[|replies| - 1];
      CommitmentKeys(local, own, init);
      assert replies == init + [r];
      assert Ids(replies) == Ids(init) + {r.id.value} by {
        forall q | q in replies ensures q.id.value in Ids(init) + {r.id.value} {
          assert q in init || q == r;
        }
        assert r in replies;
        assert forall q :: q in init ==> q in replies;
      }
    }
  }

  /** No two replies carry the same identifier, and none carries the local one. */
  predicate Distinct(local: nat, replies: seq<CommitReply>) {
    && (forall i, j :: 0 <= i < j < |replies| ==> replies[i].id != replies[j].id)
    && (forall r :: r in replies ==> r.id != Some(local))
  }

  lemma {:induction false} ReplyAt(local: nat, own: string, replies: seq<CommitReply>, r: CommitReply)
    requires Readable(replies) && Distinct(local, replies) && r in replies
    ensures r.id.value in Commitments(local, own, replies) && r.id.value in NodeOf(replies)
    ensures Commitments(local, own, replies)[r.id.value] == r.commitment.value
    ensures NodeOf(replies)[r.id.value] == r.node
  {
    var init := replies[..|replies| - 1];
    assert replies == init + [replies[|replies| - 1]];
    CommitmentKeys(local, own, init);
    if r in init {
      ReplyAt(local, own, init, r);
      var i :| 0 <= i < |init| && init[i] == r;
      assert replies[i].id != replies[|replies| - 1].id;
    }
  }

  lemma {:induction false} LocalAt(local: nat, own: string, replies: seq<CommitReply>)
    requires Readable(replies) && Distinct(local, replies)
    ensures local in Commitments(local, own, replies) && Commitments(local, own, replies)[local] == own
  {
    if replies != [] {
      assert replies[|replies| - 1] in replies;
      LocalAt(local, own, replies[..|replies| - 1]);
    }
  }

  /**
   Peers may answer in any order: with distinct identifiers the commitments and the node behind
   each identifier are the same for every permutation of the replies.
   */
  lemma OrderIrrelevant(local: nat, own: string, a: seq<CommitReply>, b: seq<CommitReply>)
    requires Readable(a) && Readable(b) && Distinct(local, a) && Distinct(local, b)
    requires forall r :: r in a <==> r in b
    ensures Commitments(local, own, a) == Commitments(local, own, b)
    ensures NodeOf(a) == NodeOf(b)
  {
    hide Commitments, NodeOf;
    CommitmentKeys(local, own, a);
    CommitmentKeys(local, own, b);
    LocalAt(local, own, a);
    LocalAt(local, own, b);
    var (ca, cb) := (Commitments(local, own, a), Commitments(local, own, b));
    assert Ids(a) == Ids(b);
    forall id | id in Ids(a) ensures ca[id] == cb[id] && NodeOf(a)[id] == NodeOf(b)[id] {
      var r :| r in a && r.id.value == id;
      ReplyAt(local, own, a, r);
      ReplyAt(local, own, b, r);
    }
  }

  /** Even with repeated identifiers, who signs depends only on which identifiers answered. */
  lemma SignersIgnoreOrder(local: nat, own: string, min: nat, a: seq<CommitReply>, b: seq<CommitReply>, s: set<nat>, t: set<nat>)
    requires Readable(a) && Readable(b) && Ids(a) == Ids(b)
    requires Selection(Commitments(local, own, a).Keys, local, min, s)
    requires Selection(Commitments(local, own, b).Keys, local, min, t)
    ensures s == t
  {
    CommitmentKeys(local, own, a);
    CommitmentKeys(local, own, b);
    SelectionUnique(Commitments(local, own, a).Keys, local, min, s, t);
  }

  method Collect(local: nat, own: string, replies: seq<CommitReply>)
    returns (r: Result<(map<nat, string>, map<nat, string>)>)
    ensures r == if Readable(replies) then Ok((Commitments(local, own, replies), NodeOf(replies))) else Err(Threshold)
  {
    var commitments, nodes := map[local := own], map[];
    var i := 0;
    while i < |replies|
      invariant i <= |replies| && Readable(replies[..i])
      invariant commitments == Commitments(local, own, replies[..i])
      invariant nodes == NodeOf(replies[..i])
    {
      var p := replies[i];
      assert p in replies;
      if p.id.None? || p.commitment.None? {
        return Err(Threshold);
      }
      assert replies[..i + 1][..i] == replies[..i];
      commitments := commitments[p.id.value := p.commitment.value];
      nodes := nodes[p.id.value := p.node];
      i := i + 1;
    }
    assert replies[..|replies|] == replies;
    return Ok((commitments, nodes));
  }

  // ---------- trimming ----------

  ghost predicate Ascending(ids: seq<nat>) {
    forall i, j :: 0 <= i < j < |ids| ==> ids[i] < ids[j]
  }

  lemma Least(s: set<nat>) returns (m: nat)
    requires s != {}
    ensures m in s && forall x :: x in s ==> m <= x
  {
    m :| m in s;
    if x :| x in s && x < m {
      assert s == {m} + (s - {m});
      m := Least(s - {m});
    }
  }

  method SortIds(s: set<nat>) returns (ids: seq<nat>)
    ensures Ascending(ids)
    ensures forall x :: x in ids <==> x in s
  {
    var rest := s;
    ids := [];
    while rest != {}
      invariant Ascending(ids) && rest <= s
      invariant forall x :: x in ids <==> x in s && x !in rest
      invariant forall x, y :: x in ids && y in rest ==> x < y
      decreases |rest|
    {
      ghost var least := Least(rest);
      var m :| m in rest && forall x :: x in rest ==> m <= x;
      assert forall k :: 0 <= k < |ids| ==> ids[k] in ids;
      ids := ids + [m];
      rest := rest - {m};
    }
  }

  ghost function Front(local: nat, ids: seq<nat>, i: nat): set<nat>
    requires i <= |ids|
  {
    {local} + set x | x in ids[..i]
  }

  lemma FrontNext(local: nat, ids: seq<nat>, i: nat)
    requires i < |ids| && Ascending(ids)
    ensures Front(local, ids, i + 1) == Front(local, ids, i) + {ids[i]}
    ensures ids[i] in Front(local, ids, i) <==> ids[i] == local
  {
    assert ids[..i + 1] == ids[..i] + [ids[i]];
  }

  /** The local identifier with the lowest ones selects as soon as the size is right. */
  lemma FrontSelects(local: nat, ids: seq<nat>, i: nat, min: nat, all: set<nat>)
    requires Ascending(ids) && i <= |ids| && local in all && |all| > min
    requires forall x :: x in ids <==> x in all
    requires |Front(local, ids, i)| <= Max1(min)
    requires i < |ids| ==> |Front(local, ids, i)| >= min
    ensures Selection(all, local, min, Front(local, ids, i))
  {
    var front := Front(local, ids, i);
    if i == |ids| {
      assert ids[..i] == ids;
      assert front == all;
    }
    assert |{local}| == 1 && front == {local} + (front - {local});
    forall k | 0 <= k < i ensures ids[k] in front {
      assert ids[..i][k] == ids[k];
    }
    forall a, b | a in front - {local} && b in all - front ensures a < b {
      var j :| 0 <= j < i && ids[j] == a;
      assert b in ids;
      var k :| 0 <= k < |ids| && ids[k] == b;
    }
  }

  ghost predicate Taken(commitments: map<nat, string>, kept: map<nat, string>) {
    forall id :: id in kept ==> id in commitments && kept[id] == commitments[id]
  }

  /** One turn of the trimming loop: the local identifier is kept already. */
  method Take(commitments: map<nat, string>, kept: map<nat, string>, local: nat, ids: seq<nat>, i: nat)
      returns (next: map<nat, string>)
    requires Taken(commitments, kept) && i < |ids| && Ascending(ids) && ids[i] in commitments
    requires kept.Keys == Front(local, ids, i)
    ensures Taken(commitments, next)
    ensures next.Keys == Front(local, ids, i + 1) && |next.Keys| <= |kept.Keys| + 1
  {
    var id := ids[i];
    FrontNext(local, ids, i);
    hide Ascending, Front;
    if id == local {
      next := kept;
      assert kept.Keys + {id} == kept.Keys;
    } else {
      next := kept[id := commitments[id]];
      assert next.Keys == kept.Keys + {id};
    }
  }

  /** Keep the local identifier and then the lowest ones until the threshold is reached. */
  method Trim(commitments: map<nat, string>, local: nat, min: nat) returns (kept: map<nat, string>)
    requires local in commitments && |commitments.Keys| > min
    ensures Selection(commitments.Keys, local, min, kept.Keys)
    ensures Taken(commitments, kept)
  {
    hide Selection, Ascending, Front, Taken;
    var ids := SortIds(commitments.Keys);
    kept := map[local := commitments[local]];
    FrontStart(commitments, local, ids);
    var size := Max1(min);
    var i := 0;
    while i < |ids| && |kept.Keys| < min
      invariant i <= |ids| && Taken(commitments, kept)
      invariant kept.Keys == Front(local, ids, i) && |kept.Keys| <= size
    {
      assert ids[i] in ids;
      kept := Take(commitments, kept, local, ids, i);
      i := i + 1;
    }
    FrontSelects(local, ids, i, min, commitments.Keys);
  }

  lemma FrontStart(commitments: map<nat, string>, local: nat, ids: seq<nat>)
    requires local in commitments
    ensures var kept := map[local := commitments[local]];
            kept.Keys == Front(local, ids, 0) && |kept.Keys| == 1 && Taken(commitments, kept)
  {
    var kept := map[local := commitments[local]];
    assert kept.Keys == {local};
  }

  // ---------- shares and attribution ----------

  ghost function Shares(local: nat, own: string, signers: set<nat>, replies: seq<ShareReply>): map<nat, string>
    requires SharesReadable(replies, signers)
  {
    if replies == [] then map[local := own]
    else
      var r := replies[|replies| - 1];
      var before := Shares(local, own, signers, replies[..|replies| - 1]);
      if r.id.value in signers then before[r.id.value := r.share.value] else before
  }

  /** The nodes credited: the local one and the node behind each share that was taken. */
  ghost function Credited(localName: string, local: nat, nodes: map<nat, string>, signers: set<nat>, replies: seq<ShareReply>): seq<string>
    requires SharesReadable(replies, signers)
  {
    if replies == [] then [localName]
    else
      var r := replies[|replies| - 1];
      var before := Credited(localName, local, nodes, signers, replies[..|replies| - 1]);
      if r.id.value in signers && r.id.value in nodes then before + [nodes[r.id.value]] else before
  }

  /** Sort and drop duplicates. */
  function Ordered(names: seq<string>): seq<string> {
    if names == [] then [] else Insert(Ordered(names[..|names| - 1]), names[|names| - 1])
  }

  lemma {:induction false} OrderedSorted(names: seq<string>)
    ensures Sorted(Ordered(names))
    ensures forall n :: n in Ordered(names) <==> n in names
  {
    if names != [] {
      var init := names[..|names| - 1];
      OrderedSorted(init);
      InsertSorted(Ordered(init), names[|names| - 1]);
      assert names == init + [names[|names| - 1]];
    }
  }

  method CollectShares(localName: string, local: nat, own: string, nodes: map<nat, string>,
                       signers: set<nat>, replies: seq<ShareReply>)
    returns (r: Result<(map<nat, string>, seq<string>)>)
    ensures r == if SharesReadable(replies, signers)
                 then Ok((Shares(local, own, signers, replies), Credited(localName, local, nodes, signers, replies)))
                 else Err(Threshold)
  {
    var shares, names := map[local := own], [localName];
    var i := 0;
    while i < |replies|
      invariant i <= |replies| && SharesReadable(replies[..i], signers)
      invariant shares == Shares(local, own, signers, replies[..i])
      invariant names == Credited(localName, local, nodes, signers, replies[..i])
    {
      var p := replies[i];
      assert p in replies;
      assert replies[..i + 1][..i] == replies[..i];
      if p.id.None? {
        return Err(Threshold);
      }
      if p.id.value in signers {
        if p.share.None? {
          return Err(Threshold);
        }
        shares := shares[p.id.value := p.share.value];
        if p.id.value in nodes {
          names := names + [nodes[p.id.value]];
        }
      }
      i := i + 1;
    }
    assert replies[..|replies|] == replies;
    return Ok((shares, names));
  }

  /** Shares are held for signers only, and every other signer's share credits its node. */
  lemma {:induction false} ShareKeys(localName: string, local: nat, own: string, nodes: map<nat, string>,
                                     signers: set<nat>, replies: seq<ShareReply>)
    requires SharesReadable(replies, signers) && local in signers
    ensures var shares := Shares(local, own, signers, replies);
            && local in shares && shares.Keys <= signers
            && forall n :: n in Credited(localName, local, nodes, signers, replies) <==>
                 n == localName || exists r :: r in replies && r.id.value in signers && r.id.value in nodes && nodes[r.id.value] == n
    ensures forall id :: id in Shares(local, own, signers, replies) <==>
              id == local || exists r :: r in replies && r.id.value in signers && r.id.value == id
  {
    if replies != [] {
      var init, last := replies[..|replies| - 1], replies[|replies| - 1];
      ShareKeys(localName, local, own, nodes, signers, init);
      assert replies == init + [last];
      assert forall r :: r in replies <==> r in init || r == last;
    }
  }

  predicate Answered(replies: seq<ShareReply>, id: nat) {
    exists r :: r in replies && r.id == Some(id)
  }

  /** Reply `i` is the last one with the identifier. */
  predicate LastOf(replies: seq<ShareReply>, i: nat, id: nat) {
    i < |replies| && replies[i].id == Some(id) && forall j :: i < j < |replies| ==> replies[j].id != Some(id)
  }

  /** A signer's share is the one in its last reply; the local one stands when nobody else answers for it. */
  lemma {:induction false} ShareAt(local: nat, own: string, signers: set<nat>, replies: seq<ShareReply>, id: nat)
    requires SharesReadable(replies, signers) && id in Shares(local, own, signers, replies) && id in signers
    ensures var share := Shares(local, own, signers, replies)[id];
            if Answered(replies, id) then exists i: nat :: LastOf(replies, i, id) && replies[i].share == Some(share)
            else id == local && share == own
  {
    if replies != [] {
      var init, last := replies[..|replies| - 1], replies[|replies| - 1];
      assert replies == init + [last];
      if last.id == Some(id) {
        assert LastOf(replies, |init|, id);
        assert last in replies;
      } else {
        ShareAt(local, own, signers, init, id);
        if Answered(init, id) {
          var share := Shares(local, own, signers, init)[id];
          var i: nat :| LastOf(init, i, id) && init[i].share == Some(share);
          assert LastOf(replies, i, id) && replies[i] == init[i];
          assert replies[i] in replies;
        } else {
          assert !Answered(replies, id);
        }
      }
    }
  }

  /** Too few shares means some other signer did not answer. */
  lemma MissingShare(localName: string, local: nat, own: string, nodes: map<nat, string>,
                     signers: set<nat>, replies: seq<ShareReply>, min: nat)
    requires SharesReadable(replies, signers) && local in signers && |signers| == Max1(min)
    requires |Shares(local, own, signers, replies)| < min
    ensures exists id :: id in signers && id != local && !Answered(replies, id)
  {
    hide Shares, Credited;
    var shares := Shares(local, own, signers, replies);
    ShareKeys(localName, local, own, nodes, signers, replies);
    assert |shares.Keys| == |shares|;
    assert shares.Keys != signers;
    var id :| id in signers && id !in shares.Keys;
    assert !Answered(replies, id);
  }

  /** The names of a signer set. */
  ghost function NamesOf(localName: string, local: nat, nodes: map<nat, string>, signers: set<nat>): set<string>
    requires signers - {local} <= nodes.Keys
  {
    {localName} + set id | id in signers - {local} :: nodes[id]
  }

  /**
   With no reply claiming the local identifier, a share for every signer means the credited names
   are exactly the signers' names.
   */
  lemma CreditExact(localName: string, local: nat, own: string, nodes: map<nat, string>,
                    signers: set<nat>, replies: seq<ShareReply>)
    requires SharesReadable(replies, signers) && local in signers && local !in nodes
    requires signers - {local} <= nodes.Keys
    requires Shares(local, own, signers, replies).Keys == signers
    ensures (set n | n in Ordered(Credited(localName, local, nodes, signers, replies))) == NamesOf(localName, local, nodes, signers)
  {
    hide Shares, Credited, Ordered;
    var credited := Credited(localName, local, nodes, signers, replies);
    ShareKeys(localName, local, own, nodes, signers, replies);
    OrderedSorted(credited);
    forall id | id in signers - {local} ensures nodes[id] in credited {
      assert id in Shares(local, own, signers, replies);
    }
  }

  ghost function Image(nodes: map<nat, string>, ids: set<nat>): set<string>
    requires ids <= nodes.Keys
  {
    set id | id in ids :: nodes[id]
  }

  lemma {:induction false} ImageCount(nodes: map<nat, string>, ids: set<nat>)
    requires ids <= nodes.Keys
    requires forall i, j :: i in nodes && j in nodes && i != j ==> nodes[i] != nodes[j]
    ensures |Image(nodes, ids)| == |ids|
    decreases ids
  {
    if ids != {} {
      var id :| id in ids;
      var rest := ids - {id};
      ImageCount(nodes, rest);
      assert Image(nodes, ids) == Image(nodes, rest) + {nodes[id]};
      assert nodes[id] !in Image(nodes, rest);
    }
  }

  /** Distinct node names make the credited list as long as the signer set. */
  lemma NamesCount(localName: string, local: nat, nodes: map<nat, string>, signers: set<nat>)
    requires local in signers && signers - {local} <= nodes.Keys
    requires forall i, j :: i in nodes && j in nodes && i != j ==> nodes[i] != nodes[j]
    requires forall i :: i in nodes ==> nodes[i] != localName
    ensures |NamesOf(localName, local, nodes, signers)| == |signers|
  {
    hide NamesOf, Image;
    var others := signers - {local};
    ImageCount(nodes, others);
    NamesSplit(localName, local, nodes, signers);
    assert signers == {local} + others;
    assert |{localName} + Image(nodes, others)| == 1 + |Image(nodes, others)|;
  }

  lemma NamesSplit(localName: string, local: nat, nodes: map<nat, string>, signers: set<nat>)
    requires signers - {local} <= nodes.Keys && forall i :: i in nodes ==> nodes[i] != localName
    ensures NamesOf(localName, local, nodes, signers) == {localName} + Image(nodes, signers - {local})
    ensures localName !in Image(nodes, signers - {local})
  {
  }

  // ---------- the whole call ----------

  /** What a successful call promises. */
  ghost predicate Faithful(local: nat, own: string, localName: string, min: nat, replies: seq<CommitReply>, a: Attributed)
    requires Readable(replies)
  {
    var all := Commitments(local, own, replies);
    && Selection(all.Keys, local, min, a.commitments.Keys)
    && Taken(all, a.commitments)
    && a.shares.Keys == a.commitments.Keys
    && Sorted(a.names)
    && (local !in NodeOf(replies) ==>
          && a.commitments.Keys - {local} <= NodeOf(replies).Keys
          && (set n | n in a.names) == NamesOf(localName, local, NodeOf(replies), a.commitments.Keys))
  }

  method SelectSigners(commitments: map<nat, string>, local: nat, min: nat) returns (r: Result<map<nat, string>>)
    requires local in commitments
    ensures r.Err? <==> |commitments| < min
    ensures r.Err? ==> r.error == FailStop(|commitments|, min)
    ensures r.Ok? ==> Selection(commitments.Keys, local, min, r.value.Keys)
    ensures r.Ok? ==> Taken(commitments, r.value)
  {
    if |commitments| < min {
      return Err(FailStop(|commitments|, min));
    }
    var chosen := commitments;
    assert |commitments| == |commitments.Keys|;
    assert |commitments| > 0;
    if |commitments.Keys| > min {
      chosen := Trim(commitments, local, min);
    }
    return Ok(chosen);
  }

  /**
   Coordinate one signature. `localShare` is the local round-2 result, `encoded` whether the package
   serialises, `commits` and `answers` what the transport returned, `verified` whether aggregation
   and verification succeed. With everything else in order, only an unreadable share from a signer,
   or a signer whose share is missing, stops a call that has enough commitments.
   */
  method SignRawWireAttributed(keys: seq<nat>, min: nat, localName: string, own: string,
                               commits: Result<seq<CommitReply>>, encoded: bool, localShare: Option<string>,
                               answers: Result<seq<ShareReply>>, verified: bool)
    returns (r: Result<Attributed>, ghost signers: set<nat>)
    ensures r.Ok? ==> |keys| == 1 && commits.Ok? && Readable(commits.value) && encoded && localShare.Some? && answers.Ok? && verified
    ensures r.Ok? ==> Faithful(keys[0], own, localName, min, commits.value, r.value)
    ensures r.Ok? ==> signers == r.value.commitments.Keys && SharesReadable(answers.value, signers) &&
                      r.value.shares == Shares(keys[0], localShare.value, signers, answers.value)
    ensures |keys| == 1 && commits.Ok? && Readable(commits.value) &&
            |Commitments(keys[0], own, commits.value)| < min ==>
              r == Err(FailStop(|Commitments(keys[0], own, commits.value)|, min))
    ensures r.Err? && |keys| == 1 && commits.Ok? && Readable(commits.value) && encoded && localShare.Some? && answers.Ok? &&
            verified && |Commitments(keys[0], own, commits.value)| >= min ==>
              && Selection(Commitments(keys[0], own, commits.value).Keys, keys[0], min, signers)
              && (SharesReadable(answers.value, signers) ==>
                    exists id :: id in signers && id != keys[0] && !Answered(answers.value, id))
  {
    hide Selection, Commitments, NodeOf, Shares, Credited, Ordered;
    signers := {};
    if |keys| != 1 {
      return Err(Threshold), signers;
    }
    var local := keys[0];
    if commits.Err? {
      return Err(commits.error), signers;
    }
    var collected := Collect(local, own, commits.value);
    if collected.Err? {
      return Err(collected.error), signers;
    }
    var (commitments, nodes) := collected.value;
    CommitmentKeys(local, own, commits.value);
    assert local in commitments.Keys;
    var selected := SelectSigners(commitments, local, min);
    if selected.Err? {
      return Err(selected.error), signers;
    }
    var package := selected.value;
    signers := package.Keys;
    SelectionFacts(commitments.Keys, local, min, package.Keys);
    if !encoded || localShare.None? {
      return Err(Threshold), signers;
    }
    if answers.Err? {
      return Err(answers.error), signers;
    }
    var taken := CollectShares(localName, local, localShare.value, nodes, package.Keys, answers.value);
    if taken.Err? {
      return Err(taken.error), signers;
    }
    var (shares, names) := taken.value;
    ShareKeys(localName, local, localShare.value, nodes, package.Keys, answers.value);
    AllShares(shares.Keys, package.Keys, local, min);
    assert |shares.Keys| == |shares|;
    if |shares| < min {
      MissingShare(localName, local, localShare.value, nodes, package.Keys, answers.value, min);
      return Err(FailStop(|shares|, min)), signers;
    }
    if !verified {
      return Err(Threshold), signers;
    }
    OrderedSorted(names);
    if local !in nodes {
      CreditExact(localName, local, localShare.value, nodes, package.Keys, answers.value);
    }
    return Ok(Attributed(package, shares, Ordered(names))), signers;
  }

  lemma SelectionFacts(ids: set<nat>, local: nat, min: nat, signers: set<nat>)
    requires Selection(ids, local, min, signers)
    ensures local in signers && signers <= ids && |signers| == Max1(min)
  {
  }

  lemma AllShares(shares: set<nat>, signers: set<nat>, local: nat, min: nat)
    requires local in shares && shares <= signers && |signers| == Max1(min)
    ensures |shares| >= min ==> shares == signers
  {
    if |shares| >= min {
      assert shares == {local} + (shares - {local});
      assert signers == shares + (signers - shares);
    }
  }
}
