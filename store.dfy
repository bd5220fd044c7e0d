/**
 * The document store, in memory: a map from key to record with the three
 * operations the handler uses (put, filtered scan, SET update). An update of a
 * key that is not stored creates the record (upsert), as the store's UpdateItem
 * does when no condition is given. A write whose key has an empty part is
 * refused.
 */
module Store {
  import opened Wrappers
  import opened Thoughts

  /** One clause of a SET update: an attribute and its new value. */
  datatype Assignment =
    | SetStatus(status: string)
    | SetAcknowledged(acknowledged: bool)
    | SetActionTaken(actionTaken: bool)
    | SetDeleted(deleted: bool)

  /** The effect of one clause on a record. */
  function Apply(t: Thought, a: Assignment): Thought {
    match a
    case SetStatus(s) => t.(status := Some(s))
    case SetAcknowledged(b) => t.(isAcknowledged := Some(b))
    case SetActionTaken(b) => t.(actionTaken := Some(b))
    case SetDeleted(b) => t.(isDeleted := Some(b))
  }

  /** The clauses of a SET list, applied left to right. */
  function ApplyAll(t: Thought, actions: seq<Assignment>): Thought
    decreases |actions|
  {
    if actions == [] then t else ApplyAll(Apply(t, actions[0]), actions[1..])
  }

  /** Applying a list in two parts is applying it whole. */
  lemma {:induction false} ApplyAllAppend(t: Thought, xs: seq<Assignment>, ys: seq<Assignment>)
    ensures ApplyAll(t, xs + ys) == ApplyAll(ApplyAll(t, xs), ys)
    decreases |xs|
  {
    if xs == [] {
      assert xs + ys == ys;
    } else {
      assert (xs + ys)[1..] == xs[1..] + ys;
      ApplyAllAppend(Apply(t, xs[0]), xs[1..], ys);
    }
  }

  /** A SET update never touches the key, the content or the category. */
  lemma {:induction false} ApplyAllKeepsKey(t: Thought, actions: seq<Assignment>)
    ensures KeyOf(ApplyAll(t, actions)) == KeyOf(t)
    ensures ApplyAll(t, actions).content == t.content
    ensures ApplyAll(t, actions).category == t.category
    decreases |actions|
  {
    if actions != [] {
      ApplyAllKeepsKey(Apply(t, actions[0]), actions[1..]);
    }
  }

  /** Every record is stored under its own key, and no key has an empty part. */
  ghost predicate WellKeyed(items: map<Key, Thought>) {
    forall k :: k in items ==> KeyOf(items[k]) == k && ValidKey(k)
  }

  /** The record an update of `k` starts from: the stored one, or just the key. */
  function Stored(items: map<Key, Thought>, k: Key): (t: Thought)
    requires WellKeyed(items)
    ensures KeyOf(t) == k
    ensures k in items ==> t == items[k]
    ensures k !in items ==> t.content == None && t.category == None && t.status == None
    ensures k !in items ==> t.isAcknowledged == None && t.actionTaken == None && t.isDeleted == None
  {
    if k in items then items[k] else Thought(k.id, k.timestamp, None, None, None, None, None, None)
  }

  /** The table after a write that produced `r`: the record is stored under its key on success. */
  function Commit<E>(items: map<Key, Thought>, r: Result<Thought, E>): map<Key, Thought> {
    if r.Success? then items[KeyOf(r.value) := r.value] else items
  }

  lemma CommitKeepsWellKeyed<E>(items: map<Key, Thought>, r: Result<Thought, E>)
    requires WellKeyed(items)
    requires r.Success? ==> ValidKey(KeyOf(r.value))
    ensures WellKeyed(Commit(items, r))
  {
  }

  /** The records a scan with the `isDeleted` filter returns. */
  ghost function VisibleSet(items: map<Key, Thought>): set<Thought> {
    set k | k in items && Visible(items[k]) :: items[k]
  }

  /** The result of a PutItem: the item itself, unless its key has an empty part. */
  function PutItem(item: Thought): Result<Thought, Error> {
    if !ValidKey(KeyOf(item)) then Failure(EmptyKeyAttribute) else Success(item)
  }

  /** The result of an UpdateItem with the given SET list. */
  function UpdateItem(items: map<Key, Thought>, k: Key, actions: seq<Assignment>): (r: Result<Thought, Error>)
    requires WellKeyed(items)
    ensures r.Failure? <==> k.id == "" || k.timestamp == "" || actions == []
    ensures k.id == "" || k.timestamp == "" ==> r == Failure(EmptyKeyAttribute)
    ensures r.Success? ==> KeyOf(r.value) == k
  {
    if !ValidKey(k) then Failure(EmptyKeyAttribute)
    else if actions == [] then Failure(EmptyUpdateExpression)
    else
      ApplyAllKeepsKey(Stored(items, k), actions);
      Success(ApplyAll(Stored(items, k), actions))
  }

  class Table {
    var items: map<Key, Thought>

    ghost predicate Valid()
      reads this
    {
      WellKeyed(items)
    }

    constructor ()
      ensures Valid() && items == map[]
    {
      items := map[];
    }

    /** PutItem: store the record under its key, replacing any record there; an empty key part is refused. */
    method Put(item: Thought) returns (r: Result<Thought, Error>)
      requires Valid()
      modifies this
      ensures Valid()
      ensures r == PutItem(item)
      ensures items == Commit(old(items), r)
    {
      if item.id == "" || item.timestamp == "" {
        return Failure(EmptyKeyAttribute);
      }
      items := items[KeyOf(item) := item];
      r := Success(item);
    }

    /**
     * Scan with the filter `attribute_not_exists(isDeleted) OR isDeleted = :false`:
     * every visible record exactly once, in an order the store chooses.
     */
    method Scan() returns (found: seq<Thought>)
      requires Valid()
      ensures multiset(found) == multiset(VisibleSet(items))
      ensures forall t :: t in found ==> t in items.Values && Visible(t)
    {
      found := [];
      var pending := items.Keys;
      while pending != {}
        invariant pending <= items.Keys
        invariant multiset(found) ==
                  multiset(set k | k in items && k !in pending && Visible(items[k]) :: items[k])
        decreases pending
      {
        var k :| k in pending;
        ghost var before := set k' | k' in items && k' !in pending && Visible(items[k']) :: items[k'];
        ghost var after := set k' | k' in items && k' !in pending - {k} && Visible(items[k']) :: items[k'];
        if Visible(items[k]) {
          assert items[k] !in before;
          assert after == before + {items[k]};
          found := found + [items[k]];
        } else {
          assert after == before;
        }
        pending := pending - {k};
      }
      assert (set k | k in items && k !in pending && Visible(items[k]) :: items[k]) == VisibleSet(items);
      forall t | t in found
        ensures t in items.Values && Visible(t)
      {
        assert t in multiset(VisibleSet(items));
        var k :| k in items && Visible(items[k]) && items[k] == t;
      }
    }

    /**
     * UpdateItem with a SET list and `ReturnValues: 'ALL_NEW'`: a key with an
     * empty part, then an empty list, is rejected; otherwise the clauses are applied one at a time to the stored
     * record (or to a fresh record holding only the key), which is written back
     * and returned.
     */
    method Update(k: Key, actions: seq<Assignment>) returns (r: Result<Thought, Error>)
      requires Valid()
      modifies this
      ensures Valid()
      ensures r == UpdateItem(old(items), k, actions)
      ensures items == Commit(old(items), r)
    {
      if k.id == "" || k.timestamp == "" {
        return Failure(EmptyKeyAttribute);
      }
      if actions == [] {
        return Failure(EmptyUpdateExpression);
      }
      var record := if k in items then items[k] else Thought(k.id, k.timestamp, None, None, None, None, None, None);
      var i := 0;
      while i < |actions|
        invariant 0 <= i <= |actions|
        invariant ApplyAll(record, actions[i..]) == ApplyAll(Stored(items, k), actions)
      {
        assert actions[i..][1..] == actions[i + 1..];
        record := Apply(record, actions[i]);
        i := i + 1;
      }
      ApplyAllKeepsKey(Stored(items, k), actions);
      items := items[k := record];
      r := Success(record);
    }
  }
}
