/** The five entity services (tasks, guests, vendors, budget items, milestones)
    share one shape: a module-level array of records, seeded from a fixture, with
    list / find-by-Id / update / create / delete operations. One class captures
    them; the five services are five instances that differ only in the message of
    their "not found" error and in whether `update` writes the merged record back
    (only the task service does). Every service call is synchronous here: it
    either returns or throws. */
module ListStore {
  import opened Common
  import opened Records

  /** `items.findIndex(r => r.Id === id)`, with `None` for -1. */
  function IndexOfId(items: seq<Record>, id: int): (r: Option<nat>)
    ensures r.Some? ==> r.value < |items| && HasId(items[r.value], id)
    ensures r.Some? ==> forall j :: 0 <= j < r.value ==> !HasId(items[j], id)
    ensures r.None? ==> forall j :: 0 <= j < |items| ==> !HasId(items[j], id)
  {
    FindFirst(items, (r: Record) => HasId(r, id))
  }

  /** `s.splice(i, 1)` as a value: the list without its `i`-th element. */
  function RemoveAt<T>(s: seq<T>, i: nat): (r: seq<T>)
    requires i < |s|
    ensures |r| == |s| - 1
    ensures forall j :: 0 <= j < i ==> r[j] == s[j]
    ensures forall j :: i <= j < |r| ==> r[j] == s[j + 1]
  {
    s[..i] + s[i + 1..]
  }

  /** Every record carries a numeric `Id`, as the fixtures do. */
  predicate NumericIds(items: seq<Record>)
  {
    forall i :: 0 <= i < |items| ==> Field(items[i], "Id").Some? && items[i]["Id"].Num?
  }

  /** `Math.max(...items.map(r => r.Id)) + 1`: there is no fallback for an empty list. */
  function NextId(items: seq<Record>): (id: int)
    requires |items| > 0 && NumericIds(items)
    ensures forall i :: 0 <= i < |items| ==> items[i]["Id"].n < id
    ensures exists i :: 0 <= i < |items| && items[i]["Id"].n == id - 1
  {
    var ids := Map(items, (r: Record) => if "Id" in r && r["Id"].Num? then r["Id"].n else 0);
    var m := Max(ids);
    assert forall i :: 0 <= i < |items| ==> ids[i] == items[i]["Id"].n;
    m + 1
  }

  /** How many records carry `Id === id`. */
  function CountId(items: seq<Record>, id: int): nat
  {
    Count(items, (r: Record) => HasId(r, id))
  }

  /** The record `create` stores: the caller's fields, with `Id` overridden. */
  function WithId(rec: Record, id: int): (r: Record)
    ensures HasId(r, id)
    ensures r.Keys == rec.Keys + {"Id"}
    ensures forall k :: k in rec && k != "Id" ==> r[k] == rec[k]
  {
    rec["Id" := Num(id)]
  }

  class Store {
    /** The module-level array of the service. */
    var items: seq<Record>
    /** The message of the error thrown when no record has the requested Id. */
    const notFound: string
    /** Whether `update` writes the merged record back into `items`. */
    const writesBack: bool

    constructor (seed: seq<Record>, notFound: string, writesBack: bool)
      ensures items == seed
      ensures this.notFound == notFound && this.writesBack == writesBack
    {
      items := seed;
      this.notFound := notFound;
      this.writesBack := writesBack;
    }

    /** `getAll`: a fresh array with the same records in the same order. */
    method GetAll() returns (r: seq<Record>)
      ensures |r| == |items|
      ensures forall i :: 0 <= i < |r| ==> r[i] == items[i]
    {
      r := items[..];
    }

    /** `getById`: a copy of the first record with that Id, or the "not found" error. */
    method GetById(id: int) returns (r: Result<Record>)
      ensures r.Err? <==> forall j :: 0 <= j < |items| ==> !HasId(items[j], id)
      ensures r.Err? ==> r.msg == notFound
      ensures r.Ok? ==> IndexOfId(items, id).Some? && r.value == items[IndexOfId(items, id).value]
    {
      match IndexOfId(items, id)
      case None =>
        r := Err(notFound);
      case Some(k) =>
        r := Ok(items[k]);
    }

    /** `update`: the first record with that Id merged with `updates` (whose fields win).
        The task store stores the merged record in that record's place; the other
        stores return it and leave `items` alone. */
    method Update(id: int, updates: Record) returns (r: Result<Record>)
      modifies this
      ensures IndexOfId(old(items), id).None? ==> r == Err(notFound) && items == old(items)
      ensures IndexOfId(old(items), id).Some? ==>
        var k := IndexOfId(old(items), id).value;
        && r == Ok(Merge(old(items)[k], updates))
        && items == (if writesBack then old(items)[k := r.value] else old(items))
    {
      match IndexOfId(items, id)
      case None =>
        r := Err(notFound);
      case Some(k) =>
        var merged := Merge(items[k], updates);
        if writesBack {
          items := items[k := merged];
        }
        r := Ok(merged);
    }

    /** `create`: the caller's record with `Id` set to one more than the largest Id,
        appended at the end. */
    method Create(rec: Record) returns (r: Record)
      requires |items| > 0 && NumericIds(items)
      modifies this
      ensures r == WithId(rec, NextId(old(items)))
      ensures items == old(items) + [r]
    {
      r := WithId(rec, NextId(items));
      items := items + [r];
    }

    /** `delete`: splices out the first record with that Id, or throws "not found". */
    method Delete(id: int) returns (r: Result<bool>)
      modifies this
      ensures IndexOfId(old(items), id).None? ==> r == Err(notFound) && items == old(items)
      ensures IndexOfId(old(items), id).Some? ==>
        r == Ok(true) && items == RemoveAt(old(items), IndexOfId(old(items), id).value)
    {
      match IndexOfId(items, id)
      case None =>
        r := Err(notFound);
      case Some(k) =>
        items := RemoveAt(items, k);
        r := Ok(true);
    }
  }

  /** taskService: `tasksData`, "Task not found", update writes back. */
  method NewTaskStore(seed: seq<Record>) returns (s: Store)
    ensures fresh(s) && s.items == seed
    ensures s.notFound == "Task not found" && s.writesBack
  {
    s := new Store(seed, "Task not found", true);
  }

  /** guestService: `guestsData`, "Guest not found", update only returns the merge. */
  method NewGuestStore(seed: seq<Record>) returns (s: Store)
    ensures fresh(s) && s.items == seed
    ensures s.notFound == "Guest not found" && !s.writesBack
  {
    s := new Store(seed, "Guest not found", false);
  }

  /** vendorService: `vendorsData`, "Vendor not found", update only returns the merge. */
  method NewVendorStore(seed: seq<Record>) returns (s: Store)
    ensures fresh(s) && s.items == seed
    ensures s.notFound == "Vendor not found" && !s.writesBack
  {
    s := new Store(seed, "Vendor not found", false);
  }

  /** budgetService: `budgetData`, "Budget item not found", update only returns the merge. */
  method NewBudgetStore(seed: seq<Record>) returns (s: Store)
    ensures fresh(s) && s.items == seed
    ensures s.notFound == "Budget item not found" && !s.writesBack
  {
    s := new Store(seed, "Budget item not found", false);
  }

  /** timelineService: `milestonesData`, "Milestone not found", update only returns the merge. */
  method NewMilestoneStore(seed: seq<Record>) returns (s: Store)
    ensures fresh(s) && s.items == seed
    ensures s.notFound == "Milestone not found" && !s.writesBack
  {
    s := new Store(seed, "Milestone not found", false);
  }

  /** Deleting removes exactly one record with that Id: one fewer remains. */
  lemma {:induction false} DeleteRemovesOne(items: seq<Record>, id: int)
    requires IndexOfId(items, id).Some?
    ensures CountId(RemoveAt(items, IndexOfId(items, id).value), id) == CountId(items, id) - 1
  {
    var k := IndexOfId(items, id).value;
    var p := (r: Record) => HasId(r, id);
    assert items == items[..k] + ([items[k]] + items[k + 1..]);
    FilterAppend(items[..k], [items[k]] + items[k + 1..], p);
    FilterAppend([items[k]], items[k + 1..], p);
    FilterAppend(items[..k], items[k + 1..], p);
    assert items[..k] + items[k + 1..] == RemoveAt(items, k);
  }

  /** A second delete of the same Id fails exactly when the Id was unique. */
  lemma DeleteTwice(items: seq<Record>, id: int)
    requires IndexOfId(items, id).Some?
    ensures IndexOfId(RemoveAt(items, IndexOfId(items, id).value), id).None? <==> CountId(items, id) == 1
  {
    var rest := RemoveAt(items, IndexOfId(items, id).value);
    DeleteRemovesOne(items, id);
    CountIdZero(rest, id);
  }

  /** No record carries the Id exactly when none is counted. */
  lemma {:induction false} CountIdZero(items: seq<Record>, id: int)
    ensures IndexOfId(items, id).None? <==> CountId(items, id) == 0
  {
    if items != [] {
      CountIdZero(items[1..], id);
    }
  }

  /** The record `create` appends is the only one with its Id, so looking it up finds it. */
  lemma CreateThenFind(items: seq<Record>, rec: Record)
    requires |items| > 0 && NumericIds(items)
    ensures IndexOfId(items + [WithId(rec, NextId(items))], NextId(items)) == Some(|items|)
  {
    var id := NextId(items);
    var all := items + [WithId(rec, id)];
    assert forall j :: 0 <= j < |items| ==> all[j] == items[j] && !HasId(items[j], id);
    IndexOfIdAfterMisses(all, id, |items|);
  }

  /** When the first `k` records miss the Id and record `k` has it, the lookup finds `k`. */
  lemma {:induction false} IndexOfIdAfterMisses(items: seq<Record>, id: int, k: nat)
    requires k < |items| && HasId(items[k], id)
    requires forall j :: 0 <= j < k ==> !HasId(items[j], id)
    ensures IndexOfId(items, id) == Some(k)
  {
    if k > 0 {
      IndexOfIdAfterMisses(items[1..], id, k - 1);
    }
  }

  /** After a written-back update that keeps the Id, looking the Id up finds the merged record. */
  lemma UpdateThenFind(items: seq<Record>, id: int, updates: Record)
    requires IndexOfId(items, id).Some?
    requires "Id" !in updates || updates["Id"] == Num(id)
    ensures var k := IndexOfId(items, id).value;
      IndexOfId(items[k := Merge(items[k], updates)], id) == Some(k)
  {
    var k := IndexOfId(items, id).value;
    IndexOfIdAfterMisses(items[k := Merge(items[k], updates)], id, k);
  }
}
