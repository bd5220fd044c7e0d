/**
 * The four store operations of the handler: list (`handleGetThoughts`),
 * create (`handlePostThought`), partial update (`handleUpdateThought`) and
 * soft delete (`handleDeleteThought`). Each method is tied to a function of
 * the table before the call; the lemmas state what those functions promise.
 */
module Handlers {
  import opened Wrappers
  import opened Strings
  import opened Thoughts
  import opened Store

  /** The parsed JSON request body; an attribute the client left out is `None`. */
  datatype Body = Body(
    id: Option<string>,
    timestamp: Option<string>,
    content: Option<string>,
    category: Option<string>,
    status: Option<string>,
    isAcknowledged: Option<bool>,
    actionTaken: Option<bool>)

  /** `{}`, what the handler uses when the request has no body. */
  const EmptyBody: Body := Body(None, None, None, None, None, None, None)

  const IdPrefix: string := "thought_"
  const DefaultCategory: string := "general"
  const InitialStatus: string := "pending"

  // ---------------------------------------------------------------- list

  /** Newest first: each timestamp is no earlier than the next one. */
  predicate NewestFirst(ts: seq<Thought>) {
    forall i :: 0 < i < |ts| ==> LexLe(ts[i].timestamp, ts[i - 1].timestamp)
  }

  /** Inserts one record into a newest-first list, ahead of records no newer than it. */
  function InsertNewestFirst(t: Thought, ts: seq<Thought>): (r: seq<Thought>)
    requires NewestFirst(ts)
    ensures NewestFirst(r)
    ensures multiset(r) == multiset(ts) + multiset{t}
    ensures r[0] == t || (|ts| > 0 && r[0] == ts[0])
    decreases |ts|
  {
    if ts == [] || LexLe(ts[0].timestamp, t.timestamp) then [t] + ts
    else
      LexTotal(ts[0].timestamp, t.timestamp);
      assert ts == [ts[0]] + ts[1..];
      [ts[0]] + InsertNewestFirst(t, ts[1..])
  }

  /** `items.sort((a, b) => b.timestamp.localeCompare(a.timestamp))`, as a stable insertion sort. */
  function SortNewestFirst(ts: seq<Thought>): (r: seq<Thought>)
    ensures NewestFirst(r)
    ensures multiset(r) == multiset(ts)
    decreases |ts|
  {
    if ts == [] then []
    else
      assert ts == [ts[0]] + ts[1..];
      InsertNewestFirst(ts[0], SortNewestFirst(ts[1..]))
  }

  /** A list response: every visible record exactly once, newest first. */
  ghost predicate IsListing(items: map<Key, Thought>, ts: seq<Thought>) {
    multiset(ts) == multiset(VisibleSet(items)) && NewestFirst(ts)
  }

  /** `handleGetThoughts`: scan with the deleted-filter, then sort newest first. */
  method HandleGetThoughts(table: Table) returns (thoughts: seq<Thought>)
    requires table.Valid()
    ensures IsListing(table.items, thoughts)
  {
    var found := table.Scan();
    thoughts := SortNewestFirst(found);
  }

  /** A listing holds exactly the stored records that are not soft-deleted. */
  lemma ListingIsVisibleRecords(items: map<Key, Thought>, ts: seq<Thought>, t: Thought)
    requires IsListing(items, ts)
    ensures t in ts <==> t in items.Values && Visible(t)
    ensures t in ts ==> t.isDeleted != Some(true)
  {
    assert t in ts <==> t in multiset(ts);
    if t in items.Values && Visible(t) {
      var k :| k in items && items[k] == t;
      assert t in VisibleSet(items);
    }
  }

  /** A listing has one entry per visible record. */
  lemma ListingSize(items: map<Key, Thought>, ts: seq<Thought>)
    requires IsListing(items, ts)
    ensures |ts| == |VisibleSet(items)|
  {
    assert |multiset(ts)| == |multiset(VisibleSet(items))|;
  }

  /** Newest first holds for every pair, not only neighbours. */
  lemma {:induction false} NewestFirstPairwise(ts: seq<Thought>, i: nat, j: nat)
    requires NewestFirst(ts)
    requires i < j < |ts|
    ensures LexLe(ts[j].timestamp, ts[i].timestamp)
    decreases j - i
  {
    if i + 1 < j {
      NewestFirstPairwise(ts, i + 1, j);
      LexTransitive(ts[j].timestamp, ts[i + 1].timestamp, ts[i].timestamp);
    }
  }

  // ---------------------------------------------------------------- create

  /** The item literal of `handlePostThought`, for a request handled at instant `now`. */
  function NewThought(body: Body, now: string): (t: Thought)
    ensures KeyOf(t) == Key(IdPrefix + now, now)
    ensures t.content == body.content
    ensures t.category.Some? && t.category.value != ""
    ensures body.category.Some? && body.category.value != "" ==> t.category == body.category
    ensures body.category.None? || body.category == Some("") ==> t.category == Some(DefaultCategory)
    ensures t.status == Some(InitialStatus)
    ensures t.isAcknowledged == Some(false) && t.actionTaken == Some(false) && t.isDeleted == Some(false)
    ensures Visible(t)
  {
    Thought(
      id := IdPrefix + now,
      timestamp := now,
      content := body.content,
      category := if body.category.Some? && body.category.value != "" then body.category else Some(DefaultCategory),
      status := Some(InitialStatus),
      isAcknowledged := Some(false),
      actionTaken := Some(false),
      isDeleted := Some(false))
  }

  /**
   * The outcome of a create: the document client refuses an item whose content
   * is undefined, and the store one whose timestamp is empty.
   */
  function CreateResult(body: Body, now: string): (r: Result<Thought, Error>)
    ensures r.Failure? <==> body.content.None? || now == ""
    ensures body.content.None? ==> r == Failure(UndefinedValue)
    ensures r.Success? ==> r.value == NewThought(body, now)
  {
    if body.content.None? then Failure(UndefinedValue) else PutItem(NewThought(body, now))
  }

  /** `handlePostThought`: build the item, put it, and return exactly what was stored. */
  method HandlePostThought(table: Table, body: Body, now: string) returns (r: Result<Thought, Error>)
    requires table.Valid()
    modifies table
    ensures table.Valid()
    ensures r == CreateResult(body, now)
    ensures table.items == Commit(old(table.items), r)
  {
    var item := NewThought(body, now);
    if item.content.None? {
      // `send` throws while marshalling the `undefined` attribute; nothing is written
      return Failure(UndefinedValue);
    }
    r := table.Put(item);
  }

  /** After a create, every listing holds the new record exactly once and nothing else under its key. */
  lemma CreatedIsListedOnce(items: map<Key, Thought>, body: Body, now: string, ts: seq<Thought>)
    requires WellKeyed(items)
    requires CreateResult(body, now).Success?
    requires IsListing(Commit(items, CreateResult(body, now)), ts)
    ensures multiset(ts)[NewThought(body, now)] == 1
    ensures forall u :: u in ts && KeyOf(u) == Key(IdPrefix + now, now) ==> u == NewThought(body, now)
  {
    var t := NewThought(body, now);
    var after := Commit(items, CreateResult(body, now));
    assert after[KeyOf(t)] == t;
    assert t in VisibleSet(after);
    forall u | u in ts && KeyOf(u) == KeyOf(t)
      ensures u == t
    {
      assert u in multiset(ts);
      var k :| k in after && Visible(after[k]) && after[k] == u;
    }
  }

  // ---------------------------------------------------------------- partial update

  /** The position of a clause's attribute in the SET list the handler builds. */
  function Rank(a: Assignment): nat {
    match a
    case SetStatus(_) => 0
    case SetAcknowledged(_) => 1
    case SetActionTaken(_) => 2
    case SetDeleted(_) => 3
  }

  /** The SET list of `handleUpdateThought`: one clause per defined attribute, in this order. */
  function SetList(body: Body): (actions: seq<Assignment>)
    ensures actions == [] <==> body.status.None? && body.isAcknowledged.None? && body.actionTaken.None?
    ensures forall s :: SetStatus(s) in actions <==> body.status == Some(s)
    ensures forall b :: SetAcknowledged(b) in actions <==> body.isAcknowledged == Some(b)
    ensures forall b :: SetActionTaken(b) in actions <==> body.actionTaken == Some(b)
    ensures forall b :: SetDeleted(b) !in actions
    ensures forall i, j :: 0 <= i < j < |actions| ==> Rank(actions[i]) < Rank(actions[j])
  {
    (if body.status.Some? then [SetStatus(body.status.value)] else [])
    + (if body.isAcknowledged.Some? then [SetAcknowledged(body.isAcknowledged.value)] else [])
    + (if body.actionTaken.Some? then [SetActionTaken(body.actionTaken.value)] else [])
  }

  /** Builds the SET list step by step, as the handler fills its expression array. */
  method BuildSetList(body: Body) returns (actions: seq<Assignment>)
    ensures actions == SetList(body)
  {
    actions := [];
    if body.status.Some? {
      actions := actions + [SetStatus(body.status.value)];
    }
    if body.isAcknowledged.Some? {
      actions := actions + [SetAcknowledged(body.isAcknowledged.value)];
    }
    if body.actionTaken.Some? {
      actions := actions + [SetActionTaken(body.actionTaken.value)];
    }
  }

  /** Reference meaning of a partial update: supplied attributes replaced, all others kept. */
  function Patched(t: Thought, body: Body): Thought {
    t.(status := if body.status.Some? then body.status else t.status,
       isAcknowledged := if body.isAcknowledged.Some? then body.isAcknowledged else t.isAcknowledged,
       actionTaken := if body.actionTaken.Some? then body.actionTaken else t.actionTaken)
  }

  /** Applying the SET list is the reference patch. */
  lemma SetListPatches(t: Thought, body: Body)
    ensures ApplyAll(t, SetList(body)) == Patched(t, body)
  {
    var s := if body.status.Some? then [SetStatus(body.status.value)] else [];
    var a := if body.isAcknowledged.Some? then [SetAcknowledged(body.isAcknowledged.value)] else [];
    var c := if body.actionTaken.Some? then [SetActionTaken(body.actionTaken.value)] else [];
    ApplyAllAppend(t, s + a, c);
    ApplyAllAppend(t, s, a);
  }

  /** The key named by a PUT or DELETE body, if both parts are defined. */
  function RequestKey(body: Body): Option<Key> {
    if body.id.Some? && body.timestamp.Some? then Some(Key(body.id.value, body.timestamp.value)) else None
  }

  /** The outcome of a partial update on the table `items`. */
  function UpdateResult(items: map<Key, Thought>, body: Body): Result<Thought, Error>
    requires WellKeyed(items)
  {
    match RequestKey(body)
    case None => Failure(UndefinedValue)
    case Some(k) => UpdateItem(items, k, SetList(body))
  }

  /** `handleUpdateThought`: build the SET list, then update the record under the body's key. */
  method HandleUpdateThought(table: Table, body: Body) returns (r: Result<Thought, Error>)
    requires table.Valid()
    modifies table
    ensures table.Valid()
    ensures r == UpdateResult(old(table.items), body)
    ensures table.items == Commit(old(table.items), r)
  {
    var actions := BuildSetList(body);
    if body.id.None? || body.timestamp.None? {
      // `send` throws while marshalling the `undefined` key attribute
      return Failure(UndefinedValue);
    }
    r := table.Update(Key(body.id.value, body.timestamp.value), actions);
  }

  /**
   * A partial update succeeds exactly when both key parts are defined and
   * non-empty and at least one attribute is supplied; it then returns the record with the supplied
   * attributes replaced and every other attribute, the key included, kept; and
   * no other record changes.
   */
  lemma UpdateChangesOnlySuppliedFields(items: map<Key, Thought>, body: Body)
    requires WellKeyed(items)
    ensures var r := UpdateResult(items, body);
            (r.Success? <==> body.id.Some? && body.timestamp.Some? &&
                             body.id.value != "" && body.timestamp.value != "" &&
                             (body.status.Some? || body.isAcknowledged.Some? || body.actionTaken.Some?)) &&
            (r.Success? ==>
               var before := Stored(items, RequestKey(body).value);
               r.value == Patched(before, body) &&
               KeyOf(r.value) == KeyOf(before) &&
               r.value.content == before.content && r.value.category == before.category &&
               r.value.isDeleted == before.isDeleted) &&
            (forall k :: k in items && Some(k) != RequestKey(body) ==> Commit(items, r)[k] == items[k])
  {
    if RequestKey(body).Some? {
      SetListPatches(Stored(items, RequestKey(body).value), body);
    }
  }

  // ---------------------------------------------------------------- soft delete

  /** The outcome of a soft delete: `SET isDeleted = true` on the body's key. */
  function DeleteResult(items: map<Key, Thought>, body: Body): Result<Thought, Error>
    requires WellKeyed(items)
  {
    match RequestKey(body)
    case None => Failure(UndefinedValue)
    case Some(k) => UpdateItem(items, k, [SetDeleted(true)])
  }

  /** `handleDeleteThought`: mark the record deleted and return it. */
  method HandleDeleteThought(table: Table, body: Body) returns (r: Result<Thought, Error>)
    requires table.Valid()
    modifies table
    ensures table.Valid()
    ensures r == DeleteResult(old(table.items), body)
    ensures table.items == Commit(old(table.items), r)
  {
    if body.id.None? || body.timestamp.None? {
      return Failure(UndefinedValue);
    }
    r := table.Update(Key(body.id.value, body.timestamp.value), [SetDeleted(true)]);
  }

  /** A soft delete sets `isDeleted` and nothing else; it fails only for an undefined or empty key part. */
  lemma SoftDeleteSetsOnlyIsDeleted(items: map<Key, Thought>, body: Body)
    requires WellKeyed(items)
    ensures DeleteResult(items, body).Failure? <==>
              body.id.None? || body.timestamp.None? || body.id == Some("") || body.timestamp == Some("")
    ensures RequestKey(body).Some? && ValidKey(RequestKey(body).value) ==>
              DeleteResult(items, body) == Success(Stored(items, RequestKey(body).value).(isDeleted := Some(true)))
  {
  }

  /** Deleting twice leaves the same table and returns the same record as deleting once. */
  lemma SoftDeleteIdempotent(items: map<Key, Thought>, body: Body)
    requires WellKeyed(items)
    ensures var once := Commit(items, DeleteResult(items, body));
            WellKeyed(once) &&
            DeleteResult(once, body) == DeleteResult(items, body) &&
            Commit(once, DeleteResult(once, body)) == once
  {
    CommitKeepsWellKeyed(items, DeleteResult(items, body));
  }

  /** After a soft delete, nothing under that key is listed. */
  lemma DeletedIsNotListed(items: map<Key, Thought>, body: Body, ts: seq<Thought>)
    requires WellKeyed(items)
    requires RequestKey(body).Some?
    requires IsListing(Commit(items, DeleteResult(items, body)), ts)
    ensures forall t :: t in ts ==> KeyOf(t) != RequestKey(body).value
  {
    var after := Commit(items, DeleteResult(items, body));
    CommitKeepsWellKeyed(items, DeleteResult(items, body));
    forall t | t in ts
      ensures KeyOf(t) != RequestKey(body).value
    {
      ListingIsVisibleRecords(after, ts, t);
      var k :| k in after && after[k] == t;
    }
  }
}
