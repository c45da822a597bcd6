/** The subscriber list: an ordered sequence of (id, callback) entries. */
module Registry {
  import opened Types

  function Ids(hs: seq<EventHandler>): set<HandlerId>
  {
    set h | h in hs :: h.id
  }

  /** No id occurs twice; ids come from a generator that never repeats. */
  predicate UniqueIds(hs: seq<EventHandler>)
  {
    forall i, j :: 0 <= i < j < |hs| ==> hs[i].id != hs[j].id
  }

  /** The list after removing the first entry with the given id, if there is one. */
  function RemoveFirst(hs: seq<EventHandler>, id: HandlerId): seq<EventHandler>
  {
    if hs == [] then []
    else if hs[0].id == id then hs[1..]
    else [hs[0]] + RemoveFirst(hs[1..], id)
  }

  /** With no entry carrying the id, removal leaves the list as it was. */
  lemma {:induction false} RemoveFirstAbsent(hs: seq<EventHandler>, id: HandlerId)
    requires id !in Ids(hs)
    ensures RemoveFirst(hs, id) == hs
  {
    if hs != [] {
      assert hs[0] in hs;
      assert id !in Ids(hs[1..]) by {
        forall h | h in hs[1..] ensures h in hs { }
      }
      RemoveFirstAbsent(hs[1..], id);
      assert [hs[0]] + hs[1..] == hs;
    }
  }

  /**
   * When the first entry with the id is at index i, removal splices out exactly
   * that entry and keeps every other entry in its order.
   */
  lemma {:induction false} RemoveFirstAt(hs: seq<EventHandler>, id: HandlerId, i: nat)
    requires i < |hs| && hs[i].id == id
    requires forall k :: 0 <= k < i ==> hs[k].id != id
    ensures RemoveFirst(hs, id) == hs[..i] + hs[i + 1..]
  {
    if i > 0 {
      RemoveFirstAt(hs[1..], id, i - 1);
      assert hs[1..][..i - 1] == hs[1..i];
      assert hs[1..][i..] == hs[i + 1..];
      assert [hs[0]] + hs[1..i] == hs[..i];
    }
  }

  /**
   * On a list with unique ids, removal keeps ids unique, takes exactly the given
   * id out of the id set, and shortens the list by one exactly when the id was present.
   */
  lemma RemoveFirstKeepsUnique(hs: seq<EventHandler>, id: HandlerId)
    requires UniqueIds(hs)
    ensures UniqueIds(RemoveFirst(hs, id))
    ensures Ids(RemoveFirst(hs, id)) == Ids(hs) - {id}
    ensures |RemoveFirst(hs, id)| == if id in Ids(hs) then |hs| - 1 else |hs|
  {
    if id in Ids(hs) {
      var h :| h in hs && h.id == id;
      var i :| 0 <= i < |hs| && hs[i] == h;
      RemoveFirstAt(hs, id, i);
      IdsSplice(hs, i);
      UniqueSplice(hs, i);
    } else {
      RemoveFirstAbsent(hs, id);
    }
  }

  /** Entry k of a list with entry i spliced out is the entry at k, or at k + 1 from i on. */
  lemma SpliceAt(hs: seq<EventHandler>, i: nat, k: nat)
    requires i < |hs| && k < |hs| - 1
    ensures |hs[..i] + hs[i + 1..]| == |hs| - 1
    ensures (hs[..i] + hs[i + 1..])[k] == hs[if k < i then k else k + 1]
  {
  }

  /** Splicing out entry i of a unique-id list removes exactly its id from the id set. */
  lemma IdsSplice(hs: seq<EventHandler>, i: nat)
    requires UniqueIds(hs) && i < |hs|
    ensures Ids(hs[..i] + hs[i + 1..]) == Ids(hs) - {hs[i].id}
  {
    SpliceDrops(hs, i);
    SpliceKeeps(hs, i);
  }

  lemma SpliceDrops(hs: seq<EventHandler>, i: nat)
    requires UniqueIds(hs) && i < |hs|
    ensures Ids(hs[..i] + hs[i + 1..]) <= Ids(hs) - {hs[i].id}
  {
    var r := hs[..i] + hs[i + 1..];
    forall x | x in Ids(r) ensures x in Ids(hs) - {hs[i].id} {
      var h :| h in r && h.id == x;
      var k :| 0 <= k < |r| && r[k] == h;
      SpliceAt(hs, i, k);
      var k' := if k < i then k else k + 1;
      assert hs[k'] == h && k' != i;
      assert h in hs;
    }
  }

  lemma SpliceKeeps(hs: seq<EventHandler>, i: nat)
    requires i < |hs|
    ensures Ids(hs) - {hs[i].id} <= Ids(hs[..i] + hs[i + 1..])
  {
    var r := hs[..i] + hs[i + 1..];
    forall x | x in Ids(hs) - {hs[i].id} ensures x in Ids(r) {
      var h :| h in hs && h.id == x;
      var k :| 0 <= k < |hs| && hs[k] == h;
      assert k != i;
      var k' := if k < i then k else k - 1;
      SpliceAt(hs, i, k');
      assert r[k'] == h;
      assert h in r;
    }
  }

  lemma UniqueSplice(hs: seq<EventHandler>, i: nat)
    requires UniqueIds(hs) && i < |hs|
    ensures UniqueIds(hs[..i] + hs[i + 1..])
  {
    var r := hs[..i] + hs[i + 1..];
    forall p, q | 0 <= p < q < |r| ensures r[p].id != r[q].id {
      var p', q' := if p < i then p else p + 1, if q < i then q else q + 1;
      assert r[p] == hs[p'] && r[q] == hs[q'];
    }
  }

  /**
   * The callbacks one message triggers: every registered handler exactly once,
   * in registration order.
   */
  function Emitted(hs: seq<EventHandler>, msg: Message): (r: seq<Event>)
    ensures |r| == |hs|
    ensures forall k :: 0 <= k < |hs| ==> r[k] == Invoked(hs[k], msg)
  {
    if hs == [] then [] else [Invoked(hs[0], msg)] + Emitted(hs[1..], msg)
  }
}
