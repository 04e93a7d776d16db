/** Field differences of FMC audit records (backend/app/integrations/fmc_audit/service.py) and the
    snapshots they are computed from (backend/app/integrations/fmc_audit/collector.py). */
module AuditDiff {
  import opened Wrappers
  import opened Text

  /** A JSON value up to Python's equality: null, or something that counts as false or as true. */
  datatype Value = Null | Falsy(code: int) | Truthy(code: int)

  type Snapshot = map<string, Value>

  /** dict.get: a missing key reads as null. */
  function Get(m: Snapshot, key: string): Value {
    if key in m then m[key] else Null
  }

  // ---------------------------------------------------------------- the order of field names

  /** Strictly ascending, by the last key against all earlier ones. */
  ghost predicate Ascending(keys: seq<string>) {
    if keys == [] then true
    else Ascending(keys[..|keys| - 1]) && AllLess(keys[..|keys| - 1], keys[|keys| - 1])
  }

  ghost predicate AllLess(keys: seq<string>, key: string) {
    forall k :: k in keys ==> Less(k, key)
  }

  /** The least key of a nonempty set, and the keys in order: Python's sorted. */
  method LeastKey(keys: set<string>) returns (least: string)
    requires keys != {}
    ensures least in keys && forall k :: k in keys ==> k == least || Less(least, k)
  {
    least :| least in keys;
    var left := keys - {least};
    while left != {}
      invariant left <= keys && least in keys
      invariant forall k :: k in keys && k !in left ==> k == least || Less(least, k)
      decreases left
    {
      var k :| k in left;
      LessIsTotal(least, k);
      if Less(k, least) {
        NewLeast(keys - left, least, k);
        least := k;
      }
      left := left - {k};
    }
  }

  lemma NewLeast(seen: set<string>, least: string, k: string)
    requires Less(k, least) && forall x :: x in seen ==> x == least || Less(least, x)
    ensures forall x :: x in seen ==> Less(k, x)
  {
    forall x | x in seen ensures Less(k, x) {
      if x != least {
        LessIsTransitive(k, least, x);
      }
    }
  }

  method Sorted(keys: set<string>) returns (sorted: seq<string>)
    ensures Ascending(sorted) && forall k :: k in sorted <==> k in keys
  {
    sorted := [];
    var left := keys;
    while left != {}
      invariant left <= keys && Ascending(sorted)
      invariant forall k :: k in sorted <==> k in keys && k !in left
      invariant forall k :: k in left ==> AllLess(sorted, k)
      decreases left
    {
      var k := LeastKey(left);
      assert (sorted + [k])[..|sorted|] == sorted;
      assert AllLess(sorted, k);
      sorted := sorted + [k];
      left := left - {k};
    }
  }

  // ---------------------------------------------------------------- differences

  datatype ChangeType = Added | Removed | Modified

  datatype FieldDiff = FieldDiff(field: string, before: Value, after: Value, changeType: ChangeType)

  function TypeOf(before: Snapshot, after: Snapshot, key: string): ChangeType {
    if key !in before then Added else if key !in after then Removed else Modified
  }

  /** What a difference says is true of the two snapshots. */
  ghost predicate Correct(before: Snapshot, after: Snapshot, d: FieldDiff) {
    && d.before == Get(before, d.field) && d.after == Get(after, d.field)
    && d.before != d.after
    && d.changeType == TypeOf(before, after, d.field)
  }

  function Fields(diffs: seq<FieldDiff>): seq<string> {
    if diffs == [] then [] else Fields(diffs[..|diffs| - 1]) + [diffs[|diffs| - 1].field]
  }

  ghost predicate AllCorrect(before: Snapshot, after: Snapshot, diffs: seq<FieldDiff>) {
    forall d :: d in diffs ==> Correct(before, after, d)
  }

  /** The differences are correct, in ascending order of their fields, and name every field that
      reads differently. */
  ghost predicate IsDiff(before: Snapshot, after: Snapshot, diffs: seq<FieldDiff>) {
    && AllCorrect(before, after, diffs)
    && Ascending(Fields(diffs))
    && (forall key :: key in Fields(diffs) <==> Get(before, key) != Get(after, key))
  }

  function OrEmpty(m: Option<Snapshot>): Snapshot {
    match m case Some(s) => s case None => map[]
  }

  /** _compute_diffs. */
  method ComputeDiffs(before: Option<Snapshot>, after: Option<Snapshot>) returns (diffs: seq<FieldDiff>)
    ensures IsDiff(OrEmpty(before), OrEmpty(after), diffs)
  {
    var b, a := OrEmpty(before), OrEmpty(after);
    diffs := [];
    if b == map[] && a == map[] {
      return;
    }
    var keys := Sorted(b.Keys + a.Keys);
    var i := 0;
    while i < |keys|
      invariant 0 <= i <= |keys|
      invariant DiffOf(b, a, keys[..i], diffs)
    {
      var key := keys[i];
      AscendingAt(keys, i);
      assert keys[..i + 1] == keys[..i] + [key];
      var bVal, aVal := Get(b, key), Get(a, key);
      if bVal != aVal {
        var d := FieldDiff(key, bVal, aVal, TypeOf(b, a, key));
        diffs := diffs + [d];
      } else {
        SameAtKey(b, a, keys[..i], key, diffs);
      }
      i := i + 1;
    }
    assert keys[..i] == keys;
  }

  /** The differences in some of the keys. */
  ghost predicate DiffOf(before: Snapshot, after: Snapshot, keys: seq<string>, diffs: seq<FieldDiff>) {
    && AllCorrect(before, after, diffs)
    && Ascending(Fields(diffs))
    && (forall key :: key in Fields(diffs) <==> key in keys && Get(before, key) != Get(after, key))
  }

  lemma SameAtKey(before: Snapshot, after: Snapshot, keys: seq<string>, key: string, diffs: seq<FieldDiff>)
    requires DiffOf(before, after, keys, diffs) && Get(before, key) == Get(after, key)
    ensures DiffOf(before, after, keys + [key], diffs)
  {
  }

  lemma {:induction false} AscendingAt(keys: seq<string>, i: nat)
    requires Ascending(keys) && i < |keys|
    ensures AllLess(keys[..i], keys[i])
  {
    if i < |keys| - 1 {
      AscendingAt(keys[..|keys| - 1], i);
      assert keys[..|keys| - 1][..i] == keys[..i];
    }
  }

  ghost predicate SameKeys(one: seq<string>, two: seq<string>) {
    forall key :: key in one <==> key in two
  }

  lemma LastIsGreatest(keys: seq<string>, key: string)
    requires keys != [] && Ascending(keys)
    ensures key in keys <==> key == keys[|keys| - 1] || key in keys[..|keys| - 1]
    ensures key in keys ==> key == keys[|keys| - 1] || Less(key, keys[|keys| - 1])
    ensures keys[|keys| - 1] !in keys[..|keys| - 1]
  {
    LessIsTotal(keys[|keys| - 1], keys[|keys| - 1]);
  }

  lemma SomeKey(keys: seq<string>)
    ensures keys != [] ==> exists key :: key in keys
  {
    if keys != [] {
      assert keys[0] in keys;
    }
  }

  /** Keys in ascending order are listed in one way only. */
  lemma {:induction false} AscendingIsUnique(one: seq<string>, two: seq<string>)
    requires Ascending(one) && Ascending(two) && SameKeys(one, two)
    ensures one == two
  {
    SomeKey(one);
    SomeKey(two);
    if one != [] && two != [] {
      var a, b, front, back := one[|one| - 1], two[|two| - 1], one[..|one| - 1], two[..|two| - 1];
      LastIsGreatest(one, b);
      LastIsGreatest(two, a);
      assert a in one && b in two;
      LessIsTotal(a, b);
      forall key ensures key in front <==> key in back {
        LastIsGreatest(one, key);
        LastIsGreatest(two, key);
      }
      AscendingIsUnique(front, back);
      assert one == front + [a] && two == back + [b];
    }
  }

  lemma {:induction false} FieldsDetermine(before: Snapshot, after: Snapshot, one: seq<FieldDiff>, two: seq<FieldDiff>)
    requires AllCorrect(before, after, one) && AllCorrect(before, after, two) && Fields(one) == Fields(two)
    ensures one == two
  {
    FieldsAt(one);
    FieldsAt(two);
    forall i | 0 <= i < |one| ensures one[i] == two[i] {
      assert Fields(one)[i] == one[i].field && Fields(two)[i] == two[i].field;
      assert Correct(before, after, one[i]) && Correct(before, after, two[i]);
    }
  }

  lemma {:induction false} FieldsAt(diffs: seq<FieldDiff>)
    ensures |Fields(diffs)| == |diffs| && forall i :: 0 <= i < |diffs| ==> Fields(diffs)[i] == diffs[i].field
  {
    if diffs != [] {
      FieldsAt(diffs[..|diffs| - 1]);
    }
  }

  /** Two snapshots have one list of differences only. */
  lemma DiffIsUnique(before: Snapshot, after: Snapshot, one: seq<FieldDiff>, two: seq<FieldDiff>)
    requires IsDiff(before, after, one) && IsDiff(before, after, two)
    ensures one == two
  {
    assert SameKeys(Fields(one), Fields(two));
    AscendingIsUnique(Fields(one), Fields(two));
    FieldsDetermine(before, after, one, two);
  }

  // ---------------------------------------------------------------- applying differences

  ghost function Patch(m: Snapshot, diffs: seq<FieldDiff>): Snapshot {
    if diffs == [] then m else Patch(m, diffs[..|diffs| - 1])[diffs[|diffs| - 1].field := diffs[|diffs| - 1].after]
  }

  /** The same differences read backwards. */
  ghost function Unpatch(m: Snapshot, diffs: seq<FieldDiff>): Snapshot {
    if diffs == [] then m else Unpatch(m, diffs[..|diffs| - 1])[diffs[|diffs| - 1].field := diffs[|diffs| - 1].before]
  }

  lemma {:induction false} PatchReads(before: Snapshot, after: Snapshot, diffs: seq<FieldDiff>, key: string)
    requires AllCorrect(before, after, diffs)
    ensures Get(Patch(before, diffs), key) == if key in Fields(diffs) then Get(after, key) else Get(before, key)
    ensures Get(Unpatch(after, diffs), key) == if key in Fields(diffs) then Get(before, key) else Get(after, key)
  {
    if diffs != [] {
      assert diffs[|diffs| - 1] in diffs;
      PatchReads(before, after, diffs[..|diffs| - 1], key);
    }
  }

  /** Applying the differences to the first snapshot reads as the second, and undoing them on the
      second reads as the first. */
  lemma DiffsLeadFromBeforeToAfter(before: Snapshot, after: Snapshot, diffs: seq<FieldDiff>, key: string)
    requires IsDiff(before, after, diffs)
    ensures Get(Patch(before, diffs), key) == Get(after, key)
    ensures Get(Unpatch(after, diffs), key) == Get(before, key)
  {
    PatchReads(before, after, diffs, key);
  }

  /** _compute_changed_fields: the same fields, in no particular order. */
  method ComputeChangedFields(before: Snapshot, after: Snapshot) returns (changed: seq<string>)
    ensures forall diffs :: IsDiff(before, after, diffs) ==> forall key :: key in changed <==> key in Fields(diffs)
    ensures forall i, j :: 0 <= i < j < |changed| ==> changed[i] != changed[j]
  {
    changed := [];
    var left := before.Keys + after.Keys;
    while left != {}
      invariant left <= before.Keys + after.Keys
      invariant
        forall key ::
          key in changed <==> key in before.Keys + after.Keys && key !in left && Get(before, key) != Get(after, key)
      invariant forall i, j :: 0 <= i < j < |changed| ==> changed[i] != changed[j]
      decreases left
    {
      var key :| key in left;
      if Get(before, key) != Get(after, key) {
        changed := changed + [key];
      }
      left := left - {key};
    }
  }

  // ---------------------------------------------------------------- snapshots from change lists

  /** A reported change; a missing value reads as null, a missing name as the empty text. */
  datatype Change = NotAnObject | Change(fieldName: string, name: string, value: Value, oldValue: Value,
                                         newValue: Value)

  function Field(c: Change): string {
    match c
    case NotAnObject => ""
    case Change(fieldName, name, _, _, _) => if fieldName != "" then fieldName else name
  }

  /** Python's `or`. */
  function Either(a: Value, b: Value): Value {
    if a.Truthy? then a else b
  }

  datatype Which = OldOfUpdate | NewOfUpdate | OfAddition | OfDeletion

  function Chosen(c: Change, which: Which): Value
    requires c.Change?
  {
    match which
    case OldOfUpdate => c.oldValue
    case NewOfUpdate => c.newValue
    case OfAddition => Either(c.value, c.newValue)
    case OfDeletion => Either(c.value, c.oldValue)
  }

  function Fill(m: Snapshot, changes: seq<Change>, which: Which): Snapshot {
    if changes == [] then m
    else
      var earlier, c := Fill(m, changes[..|changes| - 1], which), changes[|changes| - 1];
      if Field(c) == "" then earlier else earlier[Field(c) := Chosen(c, which)]
  }

  function Before(deleted: seq<Change>, updated: seq<Change>): Snapshot {
    Fill(Fill(map[], updated, OldOfUpdate), deleted, OfDeletion)
  }

  function After(added: seq<Change>, updated: seq<Change>): Snapshot {
    Fill(Fill(map[], updated, NewOfUpdate), added, OfAddition)
  }

  function NonEmpty(m: Snapshot): Option<Snapshot> {
    if m == map[] then None else Some(m)
  }

  /** _snapshots_from_values. */
  method SnapshotsFromValues(added: seq<Change>, deleted: seq<Change>, updated: seq<Change>)
    returns (before: Option<Snapshot>, after: Option<Snapshot>)
    ensures before == if Before(deleted, updated) == map[] then None else Some(Before(deleted, updated))
    ensures after == if After(added, updated) == map[] then None else Some(After(added, updated))
  {
    var b: Snapshot, a: Snapshot := map[], map[];
    var i := 0;
    while i < |updated|
      invariant 0 <= i <= |updated|
      invariant b == Fill(map[], updated[..i], OldOfUpdate) && a == Fill(map[], updated[..i], NewOfUpdate)
    {
      assert updated[..i + 1][..i] == updated[..i];
      var field := Field(updated[i]);
      if field != "" {
        b, a := b[field := updated[i].oldValue], a[field := updated[i].newValue];
      }
      i := i + 1;
    }
    assert updated[..i] == updated;
    a := FillPass(a, added, OfAddition);
    b := FillPass(b, deleted, OfDeletion);
    return NonEmpty(b), NonEmpty(a);
  }

  /** The loop over the added or the deleted values. */
  method FillPass(m: Snapshot, changes: seq<Change>, which: Which) returns (filled: Snapshot)
    ensures filled == Fill(m, changes, which)
  {
    filled := m;
    var i := 0;
    while i < |changes|
      invariant 0 <= i <= |changes|
      invariant filled == Fill(m, changes[..i], which)
    {
      assert changes[..i + 1][..i] == changes[..i];
      var field := Field(changes[i]);
      if field != "" {
        filled := filled[field := Chosen(changes[i], which)];
      }
      i := i + 1;
    }
    assert changes[..i] == changes;
  }

  /** The last change of a field. */
  ghost function LastOf(changes: seq<Change>, field: string): Option<Change> {
    if changes == [] then None
    else if Field(changes[|changes| - 1]) == field then Some(changes[|changes| - 1])
    else LastOf(changes[..|changes| - 1], field)
  }

  lemma {:induction false} LastOfHasField(changes: seq<Change>, field: string)
    ensures LastOf(changes, field).Some?
        ==> LastOf(changes, field).value in changes && Field(LastOf(changes, field).value) == field
  {
    if changes != [] {
      LastOfHasField(changes[..|changes| - 1], field);
    }
  }

  lemma {:induction false} FillReads(m: Snapshot, changes: seq<Change>, which: Which, field: string)
    requires field != ""
    ensures field in Fill(m, changes, which) <==> field in m || LastOf(changes, field).Some?
    ensures LastOf(changes, field).Some? ==> LastOf(changes, field).value.Change?
    ensures Get(Fill(m, changes, which), field)
         == match LastOf(changes, field) case Some(c) => Chosen(c, which) case None => Get(m, field)
  {
    if changes != [] {
      FillReads(m, changes[..|changes| - 1], which, field);
    }
  }

  /** The change is about the field, by its field name, or without one by its name. */
  predicate Concerns(c: Change, field: string) {
    c.Change? && field != "" && (c.fieldName == field || (c.fieldName == "" && c.name == field))
  }

  /** The k-th change is the last one about the field. */
  ghost predicate IsLast(changes: seq<Change>, k: nat, field: string) {
    k < |changes| && Concerns(changes[k], field) && forall j :: k < j < |changes| ==> !Concerns(changes[j], field)
  }

  ghost predicate Untouched(changes: seq<Change>, field: string) {
    forall j :: 0 <= j < |changes| ==> !Concerns(changes[j], field)
  }

  lemma {:induction false} LastIsLastOf(changes: seq<Change>, k: nat, field: string)
    requires field != ""
    ensures IsLast(changes, k, field) ==> LastOf(changes, field) == Some(changes[k])
    ensures Untouched(changes, field) ==> LastOf(changes, field) == None
  {
    if changes != [] {
      LastIsLastOf(changes[..|changes| - 1], k, field);
    }
  }

  /** The value of an addition or a deletion: its own if that counts as true, else the one given. */
  function OwnOr(value: Value, otherwise: Value): Value {
    match value
    case Truthy(_) => value
    case _ => otherwise
  }

  /** What the snapshots hold of a field: the last addition or deletion of it, else the last update. */
  lemma SnapshotsHoldLastEntries(added: seq<Change>, deleted: seq<Change>, updated: seq<Change>, k: nat, field: string)
    requires field != ""
    ensures
      var b, a := Before(deleted, updated), After(added, updated);
      && (IsLast(added, k, field) ==> field in a && a[field] == OwnOr(added[k].value, added[k].newValue))
      && (IsLast(deleted, k, field) ==> field in b && b[field] == OwnOr(deleted[k].value, deleted[k].oldValue))
      && (IsLast(updated, k, field) && Untouched(added, field) ==> field in a && a[field] == updated[k].newValue)
      && (IsLast(updated, k, field) && Untouched(deleted, field) ==> field in b && b[field] == updated[k].oldValue)
      && (Untouched(updated, field) && Untouched(added, field) ==> field !in a)
      && (Untouched(updated, field) && Untouched(deleted, field) ==> field !in b)
  {
    LastIsLastOf(added, k, field);
    LastIsLastOf(deleted, k, field);
    LastIsLastOf(updated, k, field);
    FillReads(map[], updated, OldOfUpdate, field);
    FillReads(map[], updated, NewOfUpdate, field);
    FillReads(Fill(map[], updated, OldOfUpdate), deleted, OfDeletion, field);
    FillReads(Fill(map[], updated, NewOfUpdate), added, OfAddition, field);
  }

  /** Every change names a field, and no field is named twice, in one list or in two. */
  ghost predicate DistinctFields(changes: seq<Change>) {
    if changes == [] then true
    else
      var last := changes[|changes| - 1];
      && DistinctFields(changes[..|changes| - 1])
      && Field(last) != "" && LastOf(changes[..|changes| - 1], Field(last)) == None
  }

  ghost predicate NoCommonField(a: seq<Change>, b: seq<Change>) {
    forall c, d :: c in a && d in b ==> Field(c) != Field(d)
  }

  lemma {:induction false} DistinctLastOf(changes: seq<Change>, c: Change)
    requires DistinctFields(changes) && c in changes
    ensures Field(c) != "" && LastOf(changes, Field(c)) == Some(c)
  {
    var earlier, last := changes[..|changes| - 1], changes[|changes| - 1];
    if c != last {
      assert c in earlier;
      DistinctLastOf(earlier, c);
    }
  }

  lemma NotOf(a: seq<Change>, b: seq<Change>, c: Change)
    requires NoCommonField(a, b) && c in a
    ensures LastOf(b, Field(c)) == None
  {
    LastOfHasField(b, Field(c));
  }

  ghost predicate Separate(added: seq<Change>, deleted: seq<Change>, updated: seq<Change>) {
    && DistinctFields(added) && DistinctFields(deleted) && DistinctFields(updated)
    && NoCommonField(added, deleted) && NoCommonField(added, updated) && NoCommonField(deleted, updated)
  }

  /** The difference an addition, a deletion or an update stands for. */
  function AdditionDiff(c: Change): FieldDiff
    requires c.Change?
  {
    FieldDiff(Field(c), Null, Chosen(c, OfAddition), Added)
  }

  function DeletionDiff(c: Change): FieldDiff
    requires c.Change?
  {
    FieldDiff(Field(c), Chosen(c, OfDeletion), Null, Removed)
  }

  function UpdateDiff(c: Change): FieldDiff
    requires c.Change?
  {
    FieldDiff(Field(c), c.oldValue, c.newValue, Modified)
  }

  /** The fields of the snapshots are those of the lists, with the values chosen from them. */
  lemma SnapshotsRead(added: seq<Change>, deleted: seq<Change>, updated: seq<Change>, field: string)
    requires field != ""
    ensures
      var b, a := Before(deleted, updated), After(added, updated);
      && (field in b <==> LastOf(deleted, field).Some? || LastOf(updated, field).Some?)
      && (field in a <==> LastOf(added, field).Some? || LastOf(updated, field).Some?)
      && (LastOf(deleted, field).Some?
          ==> LastOf(deleted, field).value.Change? && Get(b, field) == Chosen(LastOf(deleted, field).value, OfDeletion))
      && (LastOf(added, field).Some?
          ==> LastOf(added, field).value.Change? && Get(a, field) == Chosen(LastOf(added, field).value, OfAddition))
      && (LastOf(updated, field).Some? ==> LastOf(updated, field).value.Change?)
      && (LastOf(updated, field).Some? && LastOf(deleted, field).None?
          ==> Get(b, field) == LastOf(updated, field).value.oldValue)
      && (LastOf(updated, field).Some? && LastOf(added, field).None?
          ==> Get(a, field) == LastOf(updated, field).value.newValue)
  {
    FillReads(map[], updated, OldOfUpdate, field);
    FillReads(map[], updated, NewOfUpdate, field);
    FillReads(Fill(map[], updated, OldOfUpdate), deleted, OfDeletion, field);
    FillReads(Fill(map[], updated, NewOfUpdate), added, OfAddition, field);
  }

  /** An addition is reported exactly when its value, or else its new value, is there: a value that
      counts as false, such as zero or an empty text, is lost unless a new value stands in for it. */
  lemma AdditionReported(added: seq<Change>, deleted: seq<Change>, updated: seq<Change>, diffs: seq<FieldDiff>,
                         c: Change)
    requires Separate(added, deleted, updated) && c in added
    requires IsDiff(Before(deleted, updated), After(added, updated), diffs)
    ensures c.Change?
    ensures c.value.Truthy? || c.newValue != Null <==> Field(c) in Fields(diffs)
    ensures Field(c) in Fields(diffs) ==> Correct(Before(deleted, updated), After(added, updated), AdditionDiff(c))
  {
    DistinctLastOf(added, c);
    NotOf(added, deleted, c);
    NotOf(added, updated, c);
    SnapshotsRead(added, deleted, updated, Field(c));
  }

  /** The same for deletions. */
  lemma DeletionReported(added: seq<Change>, deleted: seq<Change>, updated: seq<Change>, diffs: seq<FieldDiff>,
                         c: Change)
    requires Separate(added, deleted, updated) && c in deleted
    requires IsDiff(Before(deleted, updated), After(added, updated), diffs)
    ensures c.Change?
    ensures c.value.Truthy? || c.oldValue != Null <==> Field(c) in Fields(diffs)
    ensures Field(c) in Fields(diffs) ==> Correct(Before(deleted, updated), After(added, updated), DeletionDiff(c))
  {
    DistinctLastOf(deleted, c);
    assert NoCommonField(deleted, added);
    NotOf(deleted, added, c);
    NotOf(deleted, updated, c);
    SnapshotsRead(added, deleted, updated, Field(c));
  }

  /** An update is reported exactly when it changes the value. */
  lemma UpdateReported(added: seq<Change>, deleted: seq<Change>, updated: seq<Change>, diffs: seq<FieldDiff>, c: Change)
    requires Separate(added, deleted, updated) && c in updated
    requires IsDiff(Before(deleted, updated), After(added, updated), diffs)
    ensures c.Change?
    ensures c.oldValue != c.newValue <==> Field(c) in Fields(diffs)
    ensures Field(c) in Fields(diffs) ==> Correct(Before(deleted, updated), After(added, updated), UpdateDiff(c))
  {
    DistinctLastOf(updated, c);
    assert NoCommonField(updated, added) && NoCommonField(updated, deleted);
    NotOf(updated, added, c);
    NotOf(updated, deleted, c);
    SnapshotsRead(added, deleted, updated, Field(c));
  }

  lemma {:induction false} FieldsOf(diffs: seq<FieldDiff>, key: string)
    ensures key in Fields(diffs) <==> exists d :: d in diffs && d.field == key
  {
    if diffs != [] {
      FieldsOf(diffs[..|diffs| - 1], key);
      assert diffs[|diffs| - 1] in diffs;
    }
  }

  /** A correct difference of a listed field is the one that is listed. */
  lemma ListedDiff(before: Snapshot, after: Snapshot, diffs: seq<FieldDiff>, d: FieldDiff)
    requires IsDiff(before, after, diffs) && Correct(before, after, d)
    ensures d in diffs
  {
    FieldsOf(diffs, d.field);
    var e :| e in diffs && e.field == d.field;
    assert e == d;
  }

  lemma {:induction false} NoEmptyField(m: Snapshot, changes: seq<Change>, which: Which)
    requires "" !in m
    ensures "" !in Fill(m, changes, which)
  {
    if changes != [] {
      NoEmptyField(m, changes[..|changes| - 1], which);
    }
  }

  /** What every list promises of its values: additions and deletions have one that counts as true,
      and updates change theirs. */
  ghost predicate Telling(added: seq<Change>, deleted: seq<Change>, updated: seq<Change>) {
    && (forall c :: c in added ==> c.Change? && c.value.Truthy?)
    && (forall c :: c in deleted ==> c.Change? && c.value.Truthy?)
    && (forall c :: c in updated ==> c.Change? && c.oldValue != c.newValue)
  }

  /** The difference stands for one of the listed changes. */
  ghost predicate StandsFor(d: FieldDiff, added: seq<Change>, deleted: seq<Change>, updated: seq<Change>)
    requires Telling(added, deleted, updated)
  {
    || (exists c :: c in added && d == FieldDiff(Field(c), Null, c.value, Added))
    || (exists c :: c in deleted && d == FieldDiff(Field(c), c.value, Null, Removed))
    || (exists c :: c in updated && d == FieldDiff(Field(c), c.oldValue, c.newValue, Modified))
  }

  /** With separate fields and telling values the differences of the snapshots are exactly the
      changes that were listed. */
  lemma ListsAreReproduced(added: seq<Change>, deleted: seq<Change>, updated: seq<Change>, diffs: seq<FieldDiff>,
                           d: FieldDiff)
    requires Separate(added, deleted, updated) && Telling(added, deleted, updated)
    requires IsDiff(Before(deleted, updated), After(added, updated), diffs)
    ensures d in diffs <==> StandsFor(d, added, deleted, updated)
  {
    if d in diffs {
      FieldsOf(diffs, d.field);
      ReportedChangeIsListed(added, deleted, updated, d.field);
      ReportedDiffStandsForIt(added, deleted, updated, diffs, d);
    }
    if StandsFor(d, added, deleted, updated) {
      ListedChangeIsReported(added, deleted, updated, diffs, d);
    }
  }

  lemma ReportedChangeIsListed(added: seq<Change>, deleted: seq<Change>, updated: seq<Change>, field: string)
    requires Get(Before(deleted, updated), field) != Get(After(added, updated), field)
    ensures LastOf(added, field).Some? || LastOf(deleted, field).Some? || LastOf(updated, field).Some?
    ensures field != ""
  {
    if field == "" {
      NoEmptyField(map[], updated, OldOfUpdate);
      NoEmptyField(map[], updated, NewOfUpdate);
      NoEmptyField(Fill(map[], updated, OldOfUpdate), deleted, OfDeletion);
      NoEmptyField(Fill(map[], updated, NewOfUpdate), added, OfAddition);
    } else {
      SnapshotsRead(added, deleted, updated, field);
    }
  }

  lemma ReportedDiffStandsForIt(added: seq<Change>, deleted: seq<Change>, updated: seq<Change>, diffs: seq<FieldDiff>,
                                d: FieldDiff)
    requires Separate(added, deleted, updated) && Telling(added, deleted, updated) && d in diffs
    requires IsDiff(Before(deleted, updated), After(added, updated), diffs)
    requires LastOf(added, d.field).Some? || LastOf(deleted, d.field).Some? || LastOf(updated, d.field).Some?
    ensures StandsFor(d, added, deleted, updated)
  {
    LastOfHasField(added, d.field);
    LastOfHasField(deleted, d.field);
    LastOfHasField(updated, d.field);
    FieldsOf(diffs, d.field);
    if LastOf(added, d.field).Some? {
      AdditionReported(added, deleted, updated, diffs, LastOf(added, d.field).value);
    } else if LastOf(deleted, d.field).Some? {
      DeletionReported(added, deleted, updated, diffs, LastOf(deleted, d.field).value);
    } else {
      UpdateReported(added, deleted, updated, diffs, LastOf(updated, d.field).value);
    }
  }

  lemma ListedChangeIsReported(added: seq<Change>, deleted: seq<Change>, updated: seq<Change>, diffs: seq<FieldDiff>,
                               d: FieldDiff)
    requires Separate(added, deleted, updated) && Telling(added, deleted, updated)
        && StandsFor(d, added, deleted, updated)
    requires IsDiff(Before(deleted, updated), After(added, updated), diffs)
    ensures d in diffs
  {
    var b, a := Before(deleted, updated), After(added, updated);
    if c :| c in added && d == FieldDiff(Field(c), Null, c.value, Added) {
      AdditionReported(added, deleted, updated, diffs, c);
    } else if c :| c in deleted && d == FieldDiff(Field(c), c.value, Null, Removed) {
      DeletionReported(added, deleted, updated, diffs, c);
    } else if c :| c in updated && d == FieldDiff(Field(c), c.oldValue, c.newValue, Modified) {
      UpdateReported(added, deleted, updated, diffs, c);
    }
    ListedDiff(b, a, diffs, d);
  }
}
