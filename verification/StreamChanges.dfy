/**
 What the stream sends: each read is compared with the previous one and only new or changed receipts
 go out, oldest first. A client that starts from the baseline and applies them ends up with the same
 receipts as the latest read, for the ones its filter matches.
 */
module StreamChanges {
  import opened Common
  import opened Receipts
  import opened StreamHub

  function IdsOf(rs: seq<Change>): set<string> { set r | r in rs :: r.id }

  /** The JSON of each receipt by ID, for one read only. */
  function Remembered(rs: seq<Change>): map<string, string> {
    if rs == [] then map[] else Remembered(rs[1..])[rs[0].id := rs[0].data]
  }

  /** The new or changed receipts of a read (newest first), oldest first. */
  function Changed(sent: map<string, string>, rs: seq<Change>): seq<Change> {
    if rs == [] then []
    else
      var older := Changed(sent, rs[1..]);
      if (if rs[0].id in sent then sent[rs[0].id] else "") != rs[0].data then older + [rs[0]] else older
  }

  class Streamed {
    var sent: map<string, string>

    constructor ()
      ensures sent == map[]
    {
      sent := map[];
    }

    /** update: compares from the oldest receipt on and forgets everything the read does not hold. */
    method Update(rs: seq<Change>) returns (out: seq<Change>)
      modifies this
      ensures out == Changed(old(sent), rs)
      ensures sent == Remembered(rs)
    {
      out := [];
      var next: map<string, string> := map[];
      var i := |rs|;
      while i > 0
        invariant 0 <= i <= |rs| && sent == old(sent)
        invariant out == Changed(sent, rs[i..]) && next == Remembered(rs[i..])
      {
        i := i - 1;
        assert rs[i..][1..] == rs[i + 1..];
        next := next[rs[i].id := rs[i].data];
        if (if rs[i].id in sent then sent[rs[i].id] else "") != rs[i].data {
          out := out + [rs[i]];
        }
      }
      assert rs[0..] == rs;
      sent := next;
    }
  }

  /** The server's memory is one read's IDs, however long streams are open. */
  lemma {:induction false} MemoryIsOneRead(rs: seq<Change>)
    ensures Remembered(rs).Keys == IdsOf(rs)
    ensures DistinctBy(ChangeId, rs) ==> forall r :: r in rs ==> Remembered(rs)[r.id] == r.data
  {
    if rs != [] {
      MemoryIsOneRead(rs[1..]);
      assert rs == [rs[0]] + rs[1..];
      assert forall r :: r in rs[1..] && DistinctBy(ChangeId, rs) ==> r.id != rs[0].id;
    }
  }

  lemma {:induction false} ChangedMembers(sent: map<string, string>, rs: seq<Change>)
    ensures forall r :: r in Changed(sent, rs) <==> r in rs && (if r.id in sent then sent[r.id] else "") != r.data
  {
    if rs != [] {
      ChangedMembers(sent, rs[1..]);
      assert rs == [rs[0]] + rs[1..];
    }
  }

  // ---- The client ----

  /** A client's receipts by ID after applying changes in order. */
  function Applied(client: map<string, Change>, changes: seq<Change>): map<string, Change> {
    if changes == [] then client
    else Applied(client, changes[..|changes| - 1])[changes[|changes| - 1].id := changes[|changes| - 1]]
  }

  lemma {:induction false} AppliedUntouched(client: map<string, Change>, changes: seq<Change>, id: string)
    requires forall c :: c in changes ==> c.id != id
    ensures id in Applied(client, changes) <==> id in client
    ensures id in client ==> Applied(client, changes)[id] == client[id]
  {
    if changes != [] { AppliedUntouched(client, changes[..|changes| - 1], id); }
  }

  lemma {:induction false} AppliedHolds(client: map<string, Change>, changes: seq<Change>, c: Change)
    requires c in changes && forall d :: d in changes && d.id == c.id ==> d == c
    ensures c.id in Applied(client, changes) && Applied(client, changes)[c.id] == c
  {
    var n := |changes| - 1;
    if changes[n].id != c.id {
      assert changes == changes[..n] + [changes[n]];
      AppliedHolds(client, changes[..n], c);
    } else {
      assert changes[n] in changes;
    }
  }

  /**
   The client after reads: the first is the baseline it loads itself, each later one reaches it as the
   matching part of what update emits.
   */
  function Client(f: ReceiptFilter, polls: seq<seq<Change>>): map<string, Change>
    requires polls != []
  {
    var n := |polls| - 1;
    if n == 0 then Applied(map[], Matching(f, polls[0]))
    else Applied(Client(f, polls[..n]), Matching(f, Changed(Remembered(polls[n - 1]), polls[n])))
  }

  /** Reads hold no ID twice, and a receipt's JSON is never empty and carries the fields filters compare. */
  ghost predicate Readable(polls: seq<seq<Change>>) {
    && (forall i {:trigger polls[i]} :: 0 <= i < |polls| ==>
          DistinctBy(ChangeId, polls[i]) && forall r :: r in polls[i] ==> r.data != "")
    && (forall i, j, r, q ::
          0 <= i < |polls| && 0 <= j < |polls| && r in polls[i] && q in polls[j] && r.data == q.data ==>
            r.fields == q.fields)
  }

  /** One poll: a client in step with the previous read is brought in step with the latest. */
  lemma ClientStep(f: ReceiptFilter, previous: seq<Change>, latest: seq<Change>, client: map<string, Change>, r: Change)
    requires DistinctBy(ChangeId, previous) && DistinctBy(ChangeId, latest)
    requires forall q :: q in latest ==> q.data != ""
    requires forall p, q :: p in previous && q in latest && p.data == q.data ==> p.fields == q.fields
    requires forall p :: p in previous && Match(f, p.fields) ==> p.id in client && client[p.id] == p
    requires r in latest && Match(f, r.fields)
    ensures var after := Applied(client, Matching(f, Changed(Remembered(previous), latest)));
            r.id in after && after[r.id] == r
  {
    hide Match, Filter, Applied, Changed, Remembered;
    var changes := Changed(Remembered(previous), latest);
    assert forall q :: q in latest && q.id == r.id ==> q == r;
    FilterMember((c: Change) => Match(f, c.fields), changes);
    ChangedMembers(Remembered(previous), latest);
    if r in changes {
      AppliedHolds(client, Matching(f, changes), r);
    } else {
      MemoryIsOneRead(previous);
      var q :| q in previous && q.id == r.id;
      assert q == r;
      AppliedUntouched(client, Matching(f, changes), r.id);
    }
  }

  lemma ClientStart(f: ReceiptFilter, baseline: seq<Change>, r: Change)
    requires DistinctBy(ChangeId, baseline) && r in baseline && Match(f, r.fields)
    ensures r.id in Applied(map[], Matching(f, baseline)) && Applied(map[], Matching(f, baseline))[r.id] == r
  {
    FilterMember((c: Change) => Match(f, c.fields), baseline);
    AppliedHolds(map[], Matching(f, baseline), r);
  }

  /** Whatever the polls read, the client holds exactly the latest read's receipt for every one that matches. */
  lemma {:induction false} ClientHoldsLatestRead(f: ReceiptFilter, polls: seq<seq<Change>>, r: Change)
    requires polls != [] && Readable(polls)
    requires r in polls[|polls| - 1] && Match(f, r.fields)
    ensures r.id in Client(f, polls) && Client(f, polls)[r.id] == r
  {
    hide Match, Applied, Changed, Remembered, Matching;
    var n := |polls| - 1;
    if n == 0 {
      ClientStart(f, polls[0], r);
    } else {
      forall p | p in polls[n - 1] && Match(f, p.fields)
        ensures p.id in Client(f, polls[..n]) && Client(f, polls[..n])[p.id] == p
      {
        ClientHoldsLatestRead(f, polls[..n], p);
      }
      ClientStep(f, polls[n - 1], polls[n], Client(f, polls[..n]), r);
    }
  }

  /** Nothing is sent twice: an emitted change differs from what the previous read held under its ID. */
  lemma OnlyDifferencesAreSent(previous: seq<Change>, latest: seq<Change>, r: Change)
    requires DistinctBy(ChangeId, previous) && DistinctBy(ChangeId, latest)
    requires forall q :: q in latest ==> q.data != ""
    ensures r in Changed(Remembered(previous), latest)
            <==> r in latest && forall q :: q in previous && q.id == r.id ==> q.data != r.data
  {
    MemoryIsOneRead(previous);
    ChangedMembers(Remembered(previous), latest);
    if r.id in Remembered(previous) { var q :| q in previous && q.id == r.id; }
  }
}
