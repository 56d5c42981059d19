/** The bytes of sources at one time. */
module Snapshots {
  type Snapshot = seq<(string, string)>

  /** A source's file holds the snapshotted bytes. */
  predicate HoldsOne(files: map<string, string>, entry: (string, string)) {
    entry.0 in files && files[entry.0] == entry.1
  }

  predicate Holds(files: map<string, string>, snapshot: Snapshot) {
    forall i :: 0 <= i < |snapshot| ==> HoldsOne(files, snapshot[i])
  }

  predicate Consistent(snapshot: Snapshot) {
    forall i, j :: 0 <= i < |snapshot| && 0 <= j < |snapshot| && snapshot[i].0 == snapshot[j].0 ==>
      snapshot[i].1 == snapshot[j].1
  }

  function IdsOf(snapshot: Snapshot): seq<string> {
    if snapshot == [] then [] else IdsOf(snapshot[..|snapshot| - 1]) + [snapshot[|snapshot| - 1].0]
  }

  predicate Covers(snapshot: Snapshot, id: string) { exists i :: 0 <= i < |snapshot| && snapshot[i].0 == id }

  /** No source is in both. */
  predicate Apart(a: Snapshot, b: Snapshot) { forall i, j :: 0 <= i < |a| && 0 <= j < |b| ==> a[i].0 != b[j].0 }

  /** Files that differ on the sources of a snapshot only. */
  ghost predicate SameOutside(before: map<string, string>, after: map<string, string>, touched: Snapshot) {
    forall id :: !Covers(touched, id) ==> (id in before <==> id in after) && (id in before ==> before[id] == after[id])
  }

  lemma {:induction false} ApartKeeps(before: map<string, string>, after: map<string, string>, kept: Snapshot, touched: Snapshot)
    requires Apart(kept, touched) && SameOutside(before, after, touched)
    ensures Holds(before, kept) ==> Holds(after, kept)
  {
    forall i | 0 <= i < |kept|
      ensures HoldsOne(before, kept[i]) ==> HoldsOne(after, kept[i])
    {
      assert !Covers(touched, kept[i].0);
    }
  }
}
