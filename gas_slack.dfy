/** gas_aggregation_script.js, the Slack side of the Apps Script job:
    `createSlackMessage_` and `postToSlack_`. The date and weekday the message
    prints and the outcome of `UrlFetchApp.fetch` are parameters. */
module GasSlack {
  import opened Wrappers
  import opened Text
  import opened Sorting
  import opened GasSheets

  // ----- working and rest shifts -----

  const RestType: string := "休み"

  /** `shift.shift_type !== '休み'`; a shift without a type is a working shift. */
  predicate IsWorking(s: Record) {
    Get(s, "shift_type") != Some(RestType)
  }

  /** `shifts.filter(shift => shift.shift_type !== '休み')` */
  function Working(shifts: seq<Record>): seq<Record>
  {
    if |shifts| == 0 then []
    else
      var last := shifts[|shifts| - 1];
      Working(shifts[..|shifts| - 1]) + (if IsWorking(last) then [last] else [])
  }

  /** `shifts.filter(shift => shift.shift_type === '休み')` */
  function Rest(shifts: seq<Record>): seq<Record>
  {
    if |shifts| == 0 then []
    else
      var last := shifts[|shifts| - 1];
      Rest(shifts[..|shifts| - 1]) + (if IsWorking(last) then [] else [last])
  }

  /** The two filters split the shifts: every shift lands in exactly one of them,
      so the working count and the rest count add up to the number of shifts. */
  lemma {:induction false} WorkingRestPartition(shifts: seq<Record>)
    ensures multiset(Working(shifts)) + multiset(Rest(shifts)) == multiset(shifts)
  {
    if |shifts| > 0 {
      var k := |shifts| - 1;
      var front, last := shifts[..k], shifts[k];
      WorkingRestPartition(front);
      assert shifts == front + [last];
      assert multiset(shifts) == multiset(front) + multiset{last};
      if IsWorking(last) {
        assert Working(shifts) == Working(front) + [last];
        assert Rest(shifts) == Rest(front);
      } else {
        assert Working(shifts) == Working(front);
        assert Rest(shifts) == Rest(front) + [last];
      }
    }
  }

  /** A shift is listed as working exactly when it is one of the shifts and its
      type is not "休み". */
  lemma {:induction false} WorkingMember(shifts: seq<Record>, s: Record)
    ensures s in Working(shifts) <==> s in shifts && IsWorking(s)
  {
    if |shifts| > 0 {
      var k := |shifts| - 1;
      var front, last := shifts[..k], shifts[k];
      WorkingMember(front, s);
      assert shifts == front + [last];
      if IsWorking(last) {
        assert Working(shifts) == Working(front) + [last];
      } else {
        assert Working(shifts) == Working(front);
      }
    }
  }

  /** A shift is listed as rest exactly when it is one of the shifts and its type
      is "休み". */
  lemma {:induction false} RestMember(shifts: seq<Record>, s: Record)
    ensures s in Rest(shifts) <==> s in shifts && !IsWorking(s)
  {
    if |shifts| > 0 {
      var k := |shifts| - 1;
      var front, last := shifts[..k], shifts[k];
      RestMember(front, s);
      assert shifts == front + [last];
      if IsWorking(last) {
        assert Rest(shifts) == Rest(front);
      } else {
        assert Rest(shifts) == Rest(front) + [last];
      }
    }
  }

  // ----- grouping by store -----

  /** The property name `shiftsByStore[shift.store]` uses: the store text, or
      "undefined" for a shift without a store. */
  function StoreKey(s: Record): string {
    Show(Get(s, "store"))
  }

  /** The order in which the loop first creates each store's array: the
      insertion order of the properties of `shiftsByStore`. */
  function StoresInOrder(ws: seq<Record>): seq<string> {
    if |ws| == 0 then []
    else
      var n := |ws| - 1;
      var keys := StoresInOrder(ws[..n]);
      if StoreKey(ws[n]) in keys then keys else keys + [StoreKey(ws[n])]
  }

  /** No element occurs twice. */
  ghost predicate Distinct(s: seq<string>) {
    forall x :: multiset(s)[x] <= 1
  }

  /** Each store is created once, and the stores created are exactly the stores
      of the shifts. */
  lemma {:induction false} StoresInOrderSpec(ws: seq<Record>)
    ensures Distinct(StoresInOrder(ws))
    ensures forall k :: k in StoresInOrder(ws) <==> exists s :: s in ws && StoreKey(s) == k
  {
    if |ws| > 0 {
      var n := |ws| - 1;
      var front, last := ws[..n], ws[n];
      StoresInOrderSpec(front);
      assert ws == front + [last];
      forall k ensures k in StoresInOrder(ws) <==> exists s :: s in ws && StoreKey(s) == k {
        if k in StoresInOrder(ws) && k != StoreKey(last) {
          var s :| s in front && StoreKey(s) == k;
          assert s in ws;
        }
        if k == StoreKey(last) {
          assert last in ws;
        }
      }
    }
  }

  /** The shifts of one store, in the order the loop pushes them. */
  function Group(ws: seq<Record>, k: string): seq<Record> {
    if |ws| == 0 then []
    else
      var n := |ws| - 1;
      Group(ws[..n], k) + (if StoreKey(ws[n]) == k then [ws[n]] else [])
  }

  /** A store's array holds exactly the shifts of that store. */
  lemma {:induction false} GroupMember(ws: seq<Record>, k: string, s: Record)
    ensures s in Group(ws, k) <==> s in ws && StoreKey(s) == k
  {
    if |ws| > 0 {
      var n := |ws| - 1;
      var front, last := ws[..n], ws[n];
      GroupMember(front, k, s);
      assert ws == front + [last];
      if StoreKey(last) == k {
        assert Group(ws, k) == Group(front, k) + [last];
      } else {
        assert Group(ws, k) == Group(front, k);
      }
    }
  }

  lemma GroupStep(ws: seq<Record>, i: nat, k: string)
    requires i < |ws|
    ensures Group(ws[..i + 1], k) == Group(ws[..i], k) + (if StoreKey(ws[i]) == k then [ws[i]] else [])
  {
    assert ws[..i + 1][..i] == ws[..i];
  }

  /** A store not yet created has no shifts so far. */
  lemma {:induction false} GroupOfUnseen(ws: seq<Record>, k: string)
    requires k !in StoresInOrder(ws)
    ensures Group(ws, k) == []
  {
    if |ws| > 0 {
      GroupOfUnseen(ws[..|ws| - 1], k);
    }
  }

  lemma StoresStep(ws: seq<Record>, i: nat)
    requires i < |ws|
    ensures StoresInOrder(ws[..i + 1]) ==
      if StoreKey(ws[i]) in StoresInOrder(ws[..i]) then StoresInOrder(ws[..i])
      else StoresInOrder(ws[..i]) + [StoreKey(ws[i])]
  {
    assert ws[..i + 1][..i] == ws[..i];
  }

  /** A property name every object inherits from `Object.prototype`. On `{}` it
      is already truthy, so the loop does not create the array, and `.push` on the
      inherited value is not a function. */
  predicate Inherited(k: string) {
    k in {"constructor", "__defineGetter__", "__defineSetter__", "hasOwnProperty",
          "__lookupGetter__", "__lookupSetter__", "isPrototypeOf", "propertyIsEnumerable",
          "toString", "valueOf", "__proto__", "toLocaleString"}
  }

  /** The message of the TypeError the `.push` call then throws. */
  const PushError: string := "shiftsByStore[shift.store].push is not a function"

  /** `byStore` and `keyOrder` hold what the loop has built from the shifts `done`:
      a store is a key exactly when it is listed, listed in first-appearance
      order, and maps to its shifts in order. */
  ghost predicate Grouped(done: seq<Record>, byStore: map<string, seq<Record>>, keyOrder: seq<string>) {
    && keyOrder == StoresInOrder(done)
    && (forall k :: k in byStore <==> k in keyOrder)
    && (forall k :: k in byStore ==> byStore[k] == Group(done, k))
  }

  /** One pass of the loop body for a store that is not inherited: create the
      store's array when it is missing, then push the shift. */
  method PushShift(byStore: map<string, seq<Record>>, keyOrder: seq<string>, ws: seq<Record>, i: nat)
    returns (byStore': map<string, seq<Record>>, keyOrder': seq<string>)
    requires i < |ws| && Grouped(ws[..i], byStore, keyOrder)
    ensures Grouped(ws[..i + 1], byStore', keyOrder')
  {
    var shift := ws[i];
    var store := StoreKey(shift);
    StoresStep(ws, i);
    byStore', keyOrder' := byStore, keyOrder;
    if store !in byStore' {
      GroupOfUnseen(ws[..i], store);
      byStore' := byStore'[store := []];
      keyOrder' := keyOrder' + [store];
    }
    byStore' := byStore'[store := byStore'[store] + [shift]];
    forall k | k in byStore' ensures byStore'[k] == Group(ws[..i + 1], k) {
      GroupStep(ws, i, k);
    }
  }

  /** The loop that fills `shiftsByStore`: the map from store to its array, and
      the order in which the stores became properties of the object; `thrown`
      when some shift's store is an inherited property name. */
  method GroupByStore(ws: seq<Record>)
    returns (byStore: map<string, seq<Record>>, keyOrder: seq<string>, thrown: bool)
    ensures thrown <==> exists s :: s in ws && Inherited(StoreKey(s))
    ensures !thrown ==> keyOrder == StoresInOrder(ws)
    ensures !thrown ==> forall k :: k in byStore <==> k in keyOrder
    ensures !thrown ==> forall k :: k in byStore ==> byStore[k] == Group(ws, k)
  {
    byStore := map[];
    keyOrder := [];
    thrown := false;
    var i := 0;
    while i < |ws|
      invariant 0 <= i <= |ws|
      invariant forall j :: 0 <= j < i ==> !Inherited(StoreKey(ws[j]))
      invariant Grouped(ws[..i], byStore, keyOrder)
    {
      if Inherited(StoreKey(ws[i])) {
        assert ws[i] in ws;
        thrown := true;
        return;
      }
      byStore, keyOrder := PushShift(byStore, keyOrder, ws, i);
      i := i + 1;
    }
    assert ws[..i] == ws;
    forall s | s in ws ensures !Inherited(StoreKey(s)) {
      var j :| 0 <= j < |ws| && ws[j] == s;
    }
  }

  // ----- Object.entries order -----

  /** A property name ECMAScript treats as an array index: the canonical decimal
      text of an integer below 2^32 - 1. */
  predicate IsIndexKey(k: string) {
    |k| > 0 && AllDigits(k) && (k[0] != '0' || |k| == 1) && DigitsValue(k) < 4294967295
  }

  function KeyValue(k: string): nat {
    if IsIndexKey(k) then DigitsValue(k) else 0
  }

  predicate IndexLe(a: string, b: string) {
    KeyValue(a) <= KeyValue(b)
  }

  function IndexKeys(keys: seq<string>): seq<string>
  {
    if |keys| == 0 then []
    else
      var n := |keys| - 1;
      IndexKeys(keys[..n]) + (if IsIndexKey(keys[n]) then [keys[n]] else [])
  }

  function NamedKeys(keys: seq<string>): seq<string>
  {
    if |keys| == 0 then []
    else
      var n := |keys| - 1;
      NamedKeys(keys[..n]) + (if IsIndexKey(keys[n]) then [] else [keys[n]])
  }

  /** `Object.entries(shiftsByStore)` lists the array-index properties first, in
      ascending numeric order, then the other properties in insertion order. */
  function EntriesOrder(keys: seq<string>): (r: seq<string>)
    ensures |r| == |IndexKeys(keys)| + |NamedKeys(keys)|
  {
    var sorted := Sort(IndexKeys(keys), IndexLe);
    assert |multiset(sorted)| == |multiset(IndexKeys(keys))|;
    sorted + NamedKeys(keys)
  }

  lemma {:induction false} IndexNamedSplit(keys: seq<string>)
    ensures multiset(IndexKeys(keys)) + multiset(NamedKeys(keys)) == multiset(keys)
  {
    if |keys| > 0 {
      var n := |keys| - 1;
      IndexNamedSplit(keys[..n]);
      assert keys == keys[..n] + [keys[n]];
    }
  }

  /** A canonical numeral is the decimal text of its own value. */
  lemma {:induction false} CanonicalNumeral(k: string)
    requires |k| > 0 && AllDigits(k) && (k[0] != '0' || |k| == 1)
    ensures Decimal(DigitsValue(k)) == k
  {
    var n := |k| - 1;
    var d := k[n] as int - '0' as int;
    if n == 0 {
      assert DigitsValue(k) == d;
      assert Decimal(d) == [DigitChar(d)];
    } else {
      var front := k[..n];
      assert front[0] == k[0];
      CanonicalNumeral(front);
      var v := DigitsValue(front);
      assert v != 0;
      assert DigitsValue(k) == v * 10 + d;
      assert Decimal(v * 10 + d) == Decimal(v) + [DigitChar(d)];
      assert k == front + [k[n]];
    }
  }

  lemma IndexKeysDistinctValues(a: string, b: string)
    requires IsIndexKey(a) && IsIndexKey(b) && a != b
    ensures KeyValue(a) != KeyValue(b)
  {
    CanonicalNumeral(a);
    CanonicalNumeral(b);
  }

  lemma IndexLePreorder()
    ensures TotalPreorder(IndexLe)
  {
  }

  /** The entries are the stores, each as often as it was inserted: with distinct
      stores, every store exactly once. */
  lemma EntriesOrderPermutation(keys: seq<string>)
    ensures multiset(EntriesOrder(keys)) == multiset(keys)
  {
    IndexNamedSplit(keys);
  }

  lemma {:induction false} IndexKeysMember(keys: seq<string>, k: string)
    ensures k in IndexKeys(keys) <==> k in keys && IsIndexKey(k)
  {
    if |keys| > 0 {
      var n := |keys| - 1;
      IndexKeysMember(keys[..n], k);
      assert keys == keys[..n] + [keys[n]];
    }
  }

  /** Two positions of a sequence without repeats hold different elements. */
  lemma DistinctAt(s: seq<string>, i: nat, j: nat)
    requires Distinct(s) && i < j < |s|
    ensures s[i] != s[j]
  {
    assert s == s[..j] + s[j..];
    assert s[i] == s[..j][i];
    assert s[j] == s[j..][0];
    assert multiset(s) == multiset(s[..j]) + multiset(s[j..]);
    assert multiset(s[..j])[s[i]] >= 1;
    assert multiset(s)[s[i]] <= 1;
    assert multiset(s[j..])[s[i]] == 0;
  }

  /** The sorted index keys: each an index key of `keys`, and without repeats. */
  lemma SortedIndexKeys(keys: seq<string>)
    requires Distinct(keys)
    ensures forall k :: k in Sort(IndexKeys(keys), IndexLe) ==> k in keys && IsIndexKey(k)
    ensures Distinct(Sort(IndexKeys(keys), IndexLe))
  {
    var idx := IndexKeys(keys);
    IndexNamedSplit(keys);
    forall k | k in Sort(idx, IndexLe) ensures k in keys && IsIndexKey(k) {
      assert k in multiset(idx);
      IndexKeysMember(keys, k);
    }
    forall x ensures multiset(Sort(idx, IndexLe))[x] <= 1 {
      assert multiset(idx)[x] <= multiset(keys)[x];
    }
  }

  /** The numeric store names come first, in strictly ascending numeric order, and
      the other store names follow in the order they were inserted. */
  lemma EntriesOrderSpec(keys: seq<string>)
    requires Distinct(keys)
    ensures forall k :: k in EntriesOrder(keys) <==> k in keys
    ensures EntriesOrder(keys)[|IndexKeys(keys)|..] == NamedKeys(keys)
    ensures forall i :: 0 <= i < |IndexKeys(keys)| ==> IsIndexKey(EntriesOrder(keys)[i])
    ensures forall i, j :: 0 <= i < j < |IndexKeys(keys)| ==>
              KeyValue(EntriesOrder(keys)[i]) < KeyValue(EntriesOrder(keys)[j])
  {
    EntriesOrderPermutation(keys);
    forall k ensures k in EntriesOrder(keys) <==> k in keys {
      assert k in EntriesOrder(keys) <==> k in multiset(EntriesOrder(keys));
    }
    IndexLePreorder();
    var idx := IndexKeys(keys);
    var sorted := Sort(idx, IndexLe);
    assert |sorted| == |idx| by {
      assert |multiset(sorted)| == |multiset(idx)|;
    }
    assert EntriesOrder(keys) == sorted + NamedKeys(keys);
    SortSorted(idx, IndexLe);
    SortedIndexKeys(keys);
    forall i | 0 <= i < |idx| ensures IsIndexKey(EntriesOrder(keys)[i]) {
      assert sorted[i] in sorted;
    }
    forall i, j | 0 <= i < j < |idx|
      ensures KeyValue(EntriesOrder(keys)[i]) < KeyValue(EntriesOrder(keys)[j])
    {
      assert sorted[i] in sorted && sorted[j] in sorted;
      DistinctAt(sorted, i, j);
      IndexKeysDistinctValues(sorted[i], sorted[j]);
      assert IndexLe(sorted[i], sorted[j]);
    }
  }

  /** Without numeric store names the entries come in first-appearance order. */
  lemma {:induction false} EntriesOrderNoIndexKeys(keys: seq<string>)
    requires forall k :: k in keys ==> !IsIndexKey(k)
    ensures EntriesOrder(keys) == keys
  {
    NamedKeysAll(keys);
    assert |IndexKeys(keys)| == 0 by {
      if |IndexKeys(keys)| > 0 {
        IndexKeysMember(keys, IndexKeys(keys)[0]);
      }
    }
  }

  lemma {:induction false} NamedKeysAll(keys: seq<string>)
    requires forall k :: k in keys ==> !IsIndexKey(k)
    ensures NamedKeys(keys) == keys
  {
    if |keys| > 0 {
      var n := |keys| - 1;
      var front, last := keys[..n], keys[n];
      assert keys == front + [last];
      assert !IsIndexKey(last);
      NamedKeysAll(front);
      assert NamedKeys(keys) == NamedKeys(front) + [last];
    }
  }

  // ----- one store's block -----

  /** `String(shift.start_time || '')`: the start time, or "" when it is missing
      or empty. */
  function StartKey(s: Record): string {
    Get(s, "start_time").GetOr("")
  }

  /** The comparator of the in-place sort, with code point order in place of
      `localeCompare`. */
  predicate ShiftStartLe(a: Record, b: Record) {
    StrLe(StartKey(a), StartKey(b))
  }

  lemma ShiftStartLePreorder()
    ensures TotalPreorder(ShiftStartLe)
  {
    forall a: Record, b: Record ensures ShiftStartLe(a, b) || ShiftStartLe(b, a) {
      StrLeTotal(StartKey(a), StartKey(b));
    }
    forall a: Record, b: Record, c: Record | ShiftStartLe(a, b) && ShiftStartLe(b, c)
      ensures ShiftStartLe(a, c)
    {
      StrLeTrans(StartKey(a), StartKey(b), StartKey(c));
    }
  }

  /** `storeShifts.sort(...)`: one store's shifts after the sort. */
  function SortedGroup(ws: seq<Record>, k: string): seq<Record> {
    Sort(Group(ws, k), ShiftStartLe)
  }

  /** A store's block lists exactly that store's shifts, ordered by start time,
      with shifts that start together kept in the order they were pushed. */
  lemma SortedGroupSpec(ws: seq<Record>, k: string)
    ensures multiset(SortedGroup(ws, k)) == multiset(Group(ws, k))
    ensures forall s :: s in SortedGroup(ws, k) ==> s in ws && StoreKey(s) == k
    ensures SortedBy(SortedGroup(ws, k), ShiftStartLe)
    ensures forall x :: Ties(SortedGroup(ws, k), x, ShiftStartLe) == Ties(Group(ws, k), x, ShiftStartLe)
  {
    ShiftStartLePreorder();
    SortSorted(Group(ws, k), ShiftStartLe);
    forall x ensures Ties(SortedGroup(ws, k), x, ShiftStartLe) == Ties(Group(ws, k), x, ShiftStartLe) {
      SortStable(Group(ws, k), x, ShiftStartLe);
    }
    forall s | s in SortedGroup(ws, k) ensures s in ws && StoreKey(s) == k {
      assert s in multiset(Group(ws, k));
      GroupMember(ws, k, s);
    }
  }

  /** `🕐 *${start_time}-${end_time}*: ${employee_name} (${role}) - ${work_content}\n` */
  function ShiftLine(s: Record): string {
    "🕐 *" + Show(Get(s, "start_time")) + "-" + Show(Get(s, "end_time")) + "*: "
      + Show(Get(s, "employee_name")) + " (" + Show(Get(s, "role")) + ") - "
      + Show(Get(s, "work_content")) + "\n"
  }

  function ShiftLines(rs: seq<Record>): string {
    ConcatMap(rs, ShiftLine)
  }

  function StoreHeader(k: string): string {
    "🏪 **" + k + "店**\n"
  }

  function StoreBlock(ws: seq<Record>, k: string): string {
    StoreHeader(k) + ShiftLines(SortedGroup(ws, k)) + "\n"
  }

  /** The blocks of the stores in `order`, one after the other. */
  function Blocks(order: seq<string>, ws: seq<Record>): string {
    if |order| == 0 then "" else Blocks(order[..|order| - 1], ws) + StoreBlock(ws, order[|order| - 1])
  }

  /** The shifts the blocks list, in the order they are listed. */
  function Listed(order: seq<string>, ws: seq<Record>): seq<Record> {
    if |order| == 0 then [] else Listed(order[..|order| - 1], ws) + SortedGroup(ws, order[|order| - 1])
  }

  // ----- each working shift is listed exactly once -----

  /** The shifts whose store is one of `keys`, in order. */
  function Among(ws: seq<Record>, keys: seq<string>): seq<Record> {
    if |ws| == 0 then []
    else
      var n := |ws| - 1;
      Among(ws[..n], keys) + (if StoreKey(ws[n]) in keys then [ws[n]] else [])
  }

  lemma {:induction false} AmongSnoc(ws: seq<Record>, keys: seq<string>, k: string)
    requires k !in keys
    ensures multiset(Among(ws, keys)) + multiset(Group(ws, k)) == multiset(Among(ws, keys + [k]))
  {
    if |ws| > 0 {
      var n := |ws| - 1;
      AmongSnoc(ws[..n], keys, k);
      var key := StoreKey(ws[n]);
      assert key in keys + [k] <==> key in keys || key == k;
    }
  }

  lemma {:induction false} AmongAll(ws: seq<Record>, keys: seq<string>)
    requires forall s :: s in ws ==> StoreKey(s) in keys
    ensures Among(ws, keys) == ws
  {
    if |ws| > 0 {
      var n := |ws| - 1;
      assert ws[n] in ws;
      AmongAll(ws[..n], keys);
      assert ws == ws[..n] + [ws[n]];
    }
  }

  lemma {:induction false} ListedCounts(order: seq<string>, ws: seq<Record>)
    requires Distinct(order)
    ensures multiset(Listed(order, ws)) == multiset(Among(ws, order))
  {
    if |order| == 0 {
      AmongNone(ws);
    } else {
      var n := |order| - 1;
      var front := order[..n];
      assert order == front + [order[n]];
      assert multiset(order) == multiset(front) + multiset{order[n]};
      assert Distinct(front) by {
        forall x ensures multiset(front)[x] <= 1 {
          assert multiset(order)[x] <= 1;
        }
      }
      assert order[n] !in front by {
        assert multiset(order)[order[n]] <= 1;
      }
      ListedCounts(front, ws);
      AmongSnoc(ws, front, order[n]);
      SortedGroupSpec(ws, order[n]);
    }
  }

  lemma {:induction false} AmongNone(ws: seq<Record>)
    ensures Among(ws, []) == []
  {
    if |ws| > 0 {
      AmongNone(ws[..|ws| - 1]);
    }
  }

  /** The stores of the working shifts in the order `Object.entries` lists them. */
  function StoreOrder(shifts: seq<Record>): seq<string> {
    EntriesOrder(StoresInOrder(Working(shifts)))
  }

  /** Every working shift appears in the store blocks exactly once, and no rest
      shift appears at all. */
  lemma EachWorkingShiftListedOnce(shifts: seq<Record>)
    ensures multiset(Listed(StoreOrder(shifts), Working(shifts))) == multiset(Working(shifts))
  {
    var ws := Working(shifts);
    var keys := StoresInOrder(ws);
    StoresInOrderSpec(ws);
    EntriesOrderPermutation(keys);
    var order := EntriesOrder(keys);
    assert Distinct(order) by {
      forall x ensures multiset(order)[x] <= 1 {
        assert multiset(keys)[x] <= 1;
      }
    }
    forall s | s in ws ensures StoreKey(s) in order {
      assert s in ws && StoreKey(s) == StoreKey(s);
      assert StoreKey(s) in keys;
      assert StoreKey(s) in multiset(keys);
    }
    ListedCounts(order, ws);
    AmongAll(ws, order);
  }

  /** A store gets a block exactly when some working shift belongs to it. */
  lemma StoreOrderMember(shifts: seq<Record>, k: string)
    ensures k in StoreOrder(shifts) <==> exists s :: s in Working(shifts) && StoreKey(s) == k
  {
    var keys := StoresInOrder(Working(shifts));
    StoresInOrderSpec(Working(shifts));
    EntriesOrderPermutation(keys);
    assert k in EntriesOrder(keys) <==> k in multiset(EntriesOrder(keys));
    assert k in keys <==> k in multiset(keys);
  }

  /** Each store of the working shifts gets exactly one block. */
  lemma EachStoreOnce(shifts: seq<Record>)
    ensures Distinct(StoreOrder(shifts))
    ensures forall s :: s in Working(shifts) ==> StoreKey(s) in StoreOrder(shifts)
    ensures forall k :: k in StoreOrder(shifts) ==> exists s :: s in Working(shifts) && StoreKey(s) == k
  {
    var keys := StoresInOrder(Working(shifts));
    StoresInOrderSpec(Working(shifts));
    EntriesOrderPermutation(keys);
    forall x ensures multiset(StoreOrder(shifts))[x] <= 1 {
      assert multiset(keys)[x] <= 1;
    }
    forall s | s in Working(shifts) ensures StoreKey(s) in StoreOrder(shifts) {
      StoreOrderMember(shifts, StoreKey(s));
    }
    forall k | k in StoreOrder(shifts) ensures exists s :: s in Working(shifts) && StoreKey(s) == k {
      StoreOrderMember(shifts, k);
    }
  }

  // ----- the message -----

  function Opening(ymd: string, dayOfWeek: string): string {
    "🌅 おはようございます！\n📅 " + ymd + "(" + dayOfWeek + ")のシフト集約結果 📅\n\n"
  }

  const NoWorkingShifts: string := "📝 本日の勤務シフトはありません。"

  function CountLine(working: nat): string {
    "📊 合計 " + Decimal(working) + "件の勤務シフトが承認されています\n"
  }

  /** The rest-count line, or an empty line when nobody rests. */
  function RestLine(rest: nat): string {
    if rest > 0 then "😴 " + Decimal(rest) + "名が休みです\n\n" else "\n"
  }

  function LinkLine(fileUrl: string): string {
    "📁 詳細CSVファイル: " + fileUrl + "\n\n"
  }

  const Cheer: string := "💪 今日も一日頑張りましょう！"

  /** The text `createSlackMessage_` returns for these shifts. */
  function SlackMessage(shifts: seq<Record>, fileUrl: string, ymd: string, dayOfWeek: string): string {
    var ws := Working(shifts);
    if |ws| == 0 then Opening(ymd, dayOfWeek) + NoWorkingShifts
    else
      Opening(ymd, dayOfWeek) + CountLine(|ws|) + RestLine(|Rest(shifts)|)
        + Blocks(StoreOrder(shifts), ws) + LinkLine(fileUrl) + Cheer
  }

  /** Without working shifts the message is the opening and the "no shifts" line:
      no count, no store block and no CSV link. */
  lemma NoWorkingMessage(shifts: seq<Record>, fileUrl: string, ymd: string, dayOfWeek: string)
    requires forall s :: s in shifts ==> !IsWorking(s)
    ensures SlackMessage(shifts, fileUrl, ymd, dayOfWeek) == Opening(ymd, dayOfWeek) + NoWorkingShifts
  {
    if |Working(shifts)| > 0 {
      WorkingMember(shifts, Working(shifts)[0]);
    }
  }

  /** The count line counts the working shifts and the rest line the rest shifts:
      there is a working shift exactly when the count is positive, and the rest
      line is more than an empty line exactly when some shift is a rest shift. */
  lemma MessageCounts(shifts: seq<Record>)
    ensures |Working(shifts)| + |Rest(shifts)| == |shifts|
    ensures |Working(shifts)| > 0 <==> exists s :: s in shifts && IsWorking(s)
    ensures RestLine(|Rest(shifts)|) != "\n" <==> exists s :: s in shifts && !IsWorking(s)
  {
    WorkingRestPartition(shifts);
    assert |multiset(Working(shifts)) + multiset(Rest(shifts))| == |multiset(shifts)|;
    if |Working(shifts)| > 0 {
      WorkingMember(shifts, Working(shifts)[0]);
    }
    if exists s :: s in shifts && IsWorking(s) {
      var s :| s in shifts && IsWorking(s);
      WorkingMember(shifts, s);
    }
    if |Rest(shifts)| > 0 {
      RestMember(shifts, Rest(shifts)[0]);
      assert RestLine(|Rest(shifts)|)[0] == '😴';
    }
    if exists s :: s in shifts && !IsWorking(s) {
      var s :| s in shifts && !IsWorking(s);
      RestMember(shifts, s);
    }
  }

  /** Appending the j-th store's block to the text of the first j blocks gives the
      text of the first j + 1. */
  lemma BlocksSnoc(prefix: string, order: seq<string>, j: nat, ws: seq<Record>, before: string, after: string)
    requires j < |order|
    requires before == prefix + Blocks(order[..j], ws)
    requires after == before + StoreBlock(ws, order[j])
    ensures after == prefix + Blocks(order[..j + 1], ws)
  {
    assert order[..j + 1][..j] == order[..j];
  }

  /** One pass of the loop body: the store's header, its shifts sorted in place,
      one line per shift, then a blank line. */
  method AppendStoreBlock(message: string, store: string, storeShifts: seq<Record>, ghost ws: seq<Record>)
    returns (r: string)
    requires storeShifts == Group(ws, store)
    ensures r == message + StoreBlock(ws, store)
  {
    var sorted := Sort(storeShifts, ShiftStartLe);
    var block := AppendEach(StoreHeader(store), sorted, ShiftLine);
    r := message + (block + "\n");
  }

  /** The `for (const [store, storeShifts] of Object.entries(shiftsByStore))` loop;
      the in-place sort of each array is the value `Sort` gives. */
  method AppendStoreBlocks(prefix: string, order: seq<string>, byStore: map<string, seq<Record>>, ws: seq<Record>)
    returns (message: string)
    requires forall k :: k in order ==> k in byStore && byStore[k] == Group(ws, k)
    ensures message == prefix + Blocks(order, ws)
  {
    message := prefix;
    var j := 0;
    while j < |order|
      invariant 0 <= j <= |order|
      invariant message == prefix + Blocks(order[..j], ws)
    {
      var store := order[j];
      assert store in order;
      ghost var before := message;
      message := AppendStoreBlock(message, store, byStore[store], ws);
      BlocksSnoc(prefix, order, j, ws, before, message);
      j := j + 1;
    }
    assert order[..j] == order;
  }

  /** Some working shift's store is an inherited property name. */
  predicate InheritedStore(shifts: seq<Record>) {
    exists s :: s in shifts && IsWorking(s) && Inherited(StoreKey(s))
  }

  /** A working shift with an inherited store name is among the working shifts
      the grouping loop walks, and only such a shift is. */
  lemma WorkingInherited(shifts: seq<Record>)
    ensures (exists s :: s in Working(shifts) && Inherited(StoreKey(s))) <==> InheritedStore(shifts)
  {
    if exists s :: s in Working(shifts) && Inherited(StoreKey(s)) {
      var s :| s in Working(shifts) && Inherited(StoreKey(s));
      WorkingMember(shifts, s);
    }
    if InheritedStore(shifts) {
      var s :| s in shifts && IsWorking(s) && Inherited(StoreKey(s));
      WorkingMember(shifts, s);
    }
  }

  /** `createSlackMessage_(shifts, fileUrl)`, with the date and weekday it formats
      given as parameters: the message, or the TypeError of the grouping loop when
      a working shift's store is an inherited property name. */
  method CreateSlackMessage(shifts: seq<Record>, fileUrl: string, ymd: string, dayOfWeek: string)
    returns (r: Result<string, string>)
    ensures InheritedStore(shifts) ==> r == Err(PushError)
    ensures !InheritedStore(shifts) ==> r == Ok(SlackMessage(shifts, fileUrl, ymd, dayOfWeek))
  {
    var message := Opening(ymd, dayOfWeek);
    var workingShifts := Working(shifts);
    var restShifts := Rest(shifts);
    WorkingInherited(shifts);
    if |workingShifts| == 0 {
      message := message + NoWorkingShifts;
    } else {
      message := message + CountLine(|workingShifts|);
      message := message + RestLine(|restShifts|);
      var byStore, keyOrder, thrown := GroupByStore(workingShifts);
      if thrown {
        return Err(PushError);
      }
      EntriesOrderPermutation(keyOrder);
      assert forall k :: k in EntriesOrder(keyOrder) ==> k in multiset(keyOrder);
      message := AppendStoreBlocks(message, EntriesOrder(keyOrder), byStore, workingShifts);
      message := message + LinkLine(fileUrl);
      message := message + Cheer;
    }
    r := Ok(message);
  }

  // ----- postToSlack_ -----

  const DefaultChannel: string := "#リモートチーム勤怠報告"

  const BadUrlMessage: string :=
    "Slack Webhook URLが正しく設定されていません。GASプロパティでSLACK_WEBHOOK_URLを設定してください。"

  /** The webhook URL check: not empty, not the template placeholder, and on the
      Slack webhook host. Reached from `PostToSlack`, the emptiness test never
      fails, because `getProp_` has already rejected an empty value. */
  predicate ValidWebhookUrl(url: string) {
    url != "" && !Contains(url, "Slack%20Webhook%20URL") && IsPrefix("https://hooks.slack.com/", url)
  }

  /** What `UrlFetchApp.fetch` did: the server answered with a status and a body,
      or the request failed before an answer (the error's message). */
  datatype FetchResult = Answered(code: nat, body: string) | FetchThrew(message: string)

  /** The message of the exception `UrlFetchApp.fetch` itself throws for a status
      of 400 or more when `muteHttpExceptions` is not set, as the request
      options here leave it. */
  function RequestFailed(code: nat, body: string): string {
    "Request failed for https://hooks.slack.com returned code " + Decimal(code)
      + ". Truncated server response: " + body + " (use muteHttpExceptions option to examine full response)"
  }

  /** How `postToSlack_` ends once the request is sent: normally on status 200;
      otherwise with the fetch's own exception (a failed request, or a status of
      400 or more) or, for any other status, with the `Slack API エラー` error. */
  function FetchOutcome(fetch: FetchResult): (r: Result<(), string>)
    ensures r.Ok? <==> fetch.Answered? && fetch.code == 200
    ensures fetch.FetchThrew? ==> r == Err(fetch.message)
    ensures fetch.Answered? && fetch.code >= 400 ==> r == Err(RequestFailed(fetch.code, fetch.body))
    ensures fetch.Answered? && fetch.code != 200 && fetch.code < 400 ==>
              r == Err("Slack API エラー: " + Decimal(fetch.code) + " - " + fetch.body)
  {
    match fetch
    case FetchThrew(m) => Err(m)
    case Answered(code, body) =>
      if code >= 400 then Err(RequestFailed(code, body))
      else if code != 200 then Err("Slack API エラー: " + Decimal(code) + " - " + body)
      else Ok(())
  }

  /** `{text: message, channel: channel}` */
  datatype GasPayload = GasPayload(text: string, channel: string)

  /** The request that was sent, if any, and how the call ended (Err is a throw). */
  datatype PostOutcome = PostOutcome(posted: Option<GasPayload>, result: Result<(), string>)

  /** `postToSlack_(message)` with the script properties and the fetch outcome as
      parameters. */
  function PostToSlack(props: map<string, string>, message: string, fetch: FetchResult): (r: PostOutcome)
    ensures r.posted.Some? <==> Truthy(Get(props, "SLACK_WEBHOOK_URL")) && ValidWebhookUrl(props["SLACK_WEBHOOK_URL"])
    ensures !Truthy(Get(props, "SLACK_WEBHOOK_URL")) ==> r.result == Err("Missing property: SLACK_WEBHOOK_URL")
    ensures Truthy(Get(props, "SLACK_WEBHOOK_URL")) && !ValidWebhookUrl(props["SLACK_WEBHOOK_URL"]) ==>
              r.result == Err(BadUrlMessage)
    ensures r.posted.Some? ==> r.posted.value.text == message
    ensures r.posted.Some? ==>
              r.posted.value.channel == (if Truthy(Get(props, "SLACK_CHANNEL")) then props["SLACK_CHANNEL"] else DefaultChannel)
    ensures r.result.Ok? <==> r.posted.Some? && fetch.Answered? && fetch.code == 200
    ensures r.posted.Some? ==> r.result == FetchOutcome(fetch)
  {
    assert "Missing property: " + "SLACK_WEBHOOK_URL" == "Missing property: SLACK_WEBHOOK_URL";
    match GetProp(props, "SLACK_WEBHOOK_URL", true)
    case Err(e) => PostOutcome(None, Err(e))
    case Ok(url) =>
      var prop := GetProp(props, "SLACK_CHANNEL", false);
      var channel := if prop.Ok? && Truthy(prop.value) then prop.value.value else DefaultChannel;
      var webhookUrl := url.GetOr("");
      if !ValidWebhookUrl(webhookUrl) then PostOutcome(None, Err(BadUrlMessage))
      else
        PostOutcome(Some(GasPayload(message, channel)), FetchOutcome(fetch))
  }
}
