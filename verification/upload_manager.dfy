/**
 * The reference-image upload store of the generator page: uploaded images keyed by a
 * generated id (a `Map`, so in insertion order), each remembering the upload slot of the
 * label it was dropped on, and up to three extra rows of two upload labels each.
 *
 * Labels are DOM elements; the model keeps them in a map from element identity to the
 * dataset the store reads and writes (`data-slot`, `data-image-id`) and to whether the
 * element is still in the document (`label[data-slot=...]` queries see only those).
 */
module Uploads {
  import opened Wrappers
  import opened Strings
  import opened Images
  import opened Helpers
  import opened OrderedMap

  type LabelId = nat

  /** A label's dataset: its slot (`""` when it has none) and the id of the image it previews. */
  datatype Label = Label(slot: string, imageId: Option<string>, attached: bool)

  /** An `uploadedImages` value; `slot` is `slotKey || null`. */
  datatype Stored = Stored(file: File, dataUrl: string, slot: Option<string>)

  /** An extra upload row and its two labels. */
  datatype Row = Row(pic1: LabelId, pic2: LabelId)

  const MaxUploadRows: nat := 3

  /** Some stored image belongs to `slot`. */
  predicate HasSlot(m: seq<(string, Stored)>, slot: string) {
    m != [] && (m[0].1.slot == Some(slot) || HasSlot(m[1..], slot))
  }

  /** At most one stored image per slot. */
  predicate SlotsUnique(m: seq<(string, Stored)>) {
    m == [] || ((m[0].1.slot.Some? ==> !HasSlot(m[1..], m[0].1.slot.value)) && SlotsUnique(m[1..]))
  }

  /** Generated ids are never empty, so every found id is truthy. */
  predicate IdsNonEmpty(m: seq<(string, Stored)>) {
    forall e :: e in m ==> e.0 != ""
  }

  /** The id of the first image, in insertion order, stored for `slot`. */
  function FirstWithSlot(m: seq<(string, Stored)>, slot: string): (r: Option<string>)
    ensures r.None? <==> !HasSlot(m, slot)
    ensures IdsNonEmpty(m) && r.Some? ==> r.value != ""
  {
    if m == [] then None
    else if m[0].1.slot == Some(slot) then Some(m[0].0)
    else
      assert IdsNonEmpty(m) ==> IdsNonEmpty(m[1..]) by {
        if IdsNonEmpty(m) {
          forall e | e in m[1..] ensures e.0 != "" {
            assert e in m;
          }
        }
      }
      FirstWithSlot(m[1..], slot)
  }

  /** The found id names an entry of that slot, and no earlier entry has the slot. */
  lemma {:induction false} FirstWithSlotIsFirst(m: seq<(string, Stored)>, slot: string)
    requires FirstWithSlot(m, slot).Some?
    ensures exists i :: (0 <= i < |m| && m[i].0 == FirstWithSlot(m, slot).value && m[i].1.slot == Some(slot) &&
      forall j :: 0 <= j < i ==> m[j].1.slot != Some(slot))
  {
    if m[0].1.slot != Some(slot) {
      FirstWithSlotIsFirst(m[1..], slot);
      var i :| 0 <= i < |m[1..]| && m[1..][i].0 == FirstWithSlot(m, slot).value && m[1..][i].1.slot == Some(slot)
        && forall j :: 0 <= j < i ==> m[1..][j].1.slot != Some(slot);
      assert m[i + 1] == m[1..][i];
      forall j | 0 <= j < i + 1 ensures m[j].1.slot != Some(slot) {
        if j > 0 {
          assert m[j] == m[1..][j - 1];
        }
      }
    }
  }

  /** Deleting an id never gives a slot an image. */
  lemma {:induction false} RemoveHasSlot(m: seq<(string, Stored)>, k: string, slot: string)
    requires HasSlot(Remove(m, k), slot)
    ensures HasSlot(m, slot)
  {
    if m[0].0 != k && Remove(m, k)[0].1.slot != Some(slot) {
      assert Remove(m, k)[1..] == Remove(m[1..], k);
      RemoveHasSlot(m[1..], k, slot);
    } else if m[0].0 == k {
      RemoveHasSlot(m[1..], k, slot);
    }
  }

  /** Deleting an id keeps one image per slot. */
  lemma {:induction false} RemoveKeepsSlotsUnique(m: seq<(string, Stored)>, k: string)
    requires SlotsUnique(m)
    ensures SlotsUnique(Remove(m, k))
  {
    if m != [] {
      RemoveKeepsSlotsUnique(m[1..], k);
      if m[0].0 != k && m[0].1.slot.Some? && HasSlot(Remove(m[1..], k), m[0].1.slot.value) {
        RemoveHasSlot(m[1..], k, m[0].1.slot.value);
      }
      if m[0].0 != k {
        assert Remove(m, k)[1..] == Remove(m[1..], k);
      }
    }
  }

  /** Deleting the image found for a slot leaves the slot without an image. */
  lemma {:induction false} DetachClearsSlot(m: seq<(string, Stored)>, slot: string)
    requires SlotsUnique(m) && FirstWithSlot(m, slot).Some?
    ensures !HasSlot(Remove(m, FirstWithSlot(m, slot).value), slot)
  {
    var id := FirstWithSlot(m, slot).value;
    if m[0].1.slot == Some(slot) {
      if HasSlot(Remove(m[1..], id), slot) {
        RemoveHasSlot(m[1..], id, slot);
      }
    } else {
      DetachClearsSlot(m[1..], slot);
      if m[0].0 != id {
        assert Remove(m, id)[1..] == Remove(m[1..], id);
      }
    }
  }

  /** Setting an entry whose slot no image holds yet keeps one image per slot. */
  lemma {:induction false} SetKeepsSlotsUnique(m: seq<(string, Stored)>, k: string, v: Stored)
    requires SlotsUnique(m)
    requires v.slot.Some? ==> !HasSlot(m, v.slot.value)
    ensures SlotsUnique(Set(m, k, v))
    ensures v.slot.Some? ==> FirstWithSlot(Set(m, k, v), v.slot.value) == Some(k)
  {
    if m != [] && m[0].0 != k {
      SetKeepsSlotsUnique(m[1..], k, v);
      var r := Set(m, k, v);
      assert r[1..] == Set(m[1..], k, v);
      if m[0].1.slot.Some? && HasSlot(r[1..], m[0].1.slot.value) {
        SetHasSlot(m[1..], k, v, m[0].1.slot.value);
      }
    }
  }

  /** After `set`, a slot has an image only if it had one or the new entry is for it. */
  lemma {:induction false} SetHasSlot(m: seq<(string, Stored)>, k: string, v: Stored, slot: string)
    requires HasSlot(Set(m, k, v), slot)
    ensures HasSlot(m, slot) || v.slot == Some(slot)
  {
    var r := Set(m, k, v);
    if m != [] && m[0].0 != k && r[0].1.slot != Some(slot) {
      assert r[1..] == Set(m[1..], k, v);
      SetHasSlot(m[1..], k, v, slot);
    } else if m != [] && m[0].0 == k && r[0].1.slot != Some(slot) {
      assert r[1..] == m[1..];
    }
  }

  /**
   * The id `detachLabelImage` deletes: the slot's image when the label has a slot holding
   * one, otherwise the label's own `data-image-id`, if any.
   */
  function DetachTarget(m: seq<(string, Stored)>, lab: Label): (r: Option<string>)
    ensures lab.slot != "" && HasSlot(m, lab.slot) && IdsNonEmpty(m) ==> r == FirstWithSlot(m, lab.slot)
    ensures (lab.slot == "" || !HasSlot(m, lab.slot)) ==>
      r == (if Truthy(lab.imageId) then lab.imageId else None)
  {
    var bySlot := if lab.slot != "" then FirstWithSlot(m, lab.slot) else None;
    if bySlot.Some? && bySlot.value != "" then bySlot
    else if Truthy(lab.imageId) then lab.imageId
    else None
  }

  /** The images after a detach: the target, if any, is deleted. */
  function Detached(m: seq<(string, Stored)>, lab: Label): seq<(string, Stored)> {
    var t := DetachTarget(m, lab);
    if t.Some? then Remove(m, t.value) else m
  }

  /** Whether the detach went through the slot's image (and so resets every lab of the slot). */
  predicate SlotHit(m: seq<(string, Stored)>, lab: Label) {
    lab.slot != "" && FirstWithSlot(m, lab.slot).Some? && FirstWithSlot(m, lab.slot).value != ""
  }

  /** Every lab of `slot` in the document loses its preview. */
  function ResetSlot(labels: map<LabelId, Label>, slot: string): (r: map<LabelId, Label>)
    ensures r.Keys == labels.Keys
    ensures forall l :: l in r ==> r[l] == (if labels[l].attached && labels[l].slot == slot then labels[l].(imageId := None) else labels[l])
  {
    map l | l in labels :: if labels[l].attached && labels[l].slot == slot then labels[l].(imageId := None) else labels[l]
  }

  /** Every lab of `slot` in the document previews `id`. */
  function PreviewSlot(labels: map<LabelId, Label>, slot: string, id: string): (r: map<LabelId, Label>)
    ensures r.Keys == labels.Keys
    ensures forall l :: l in r ==> r[l] == (if labels[l].attached && labels[l].slot == slot then labels[l].(imageId := Some(id)) else labels[l])
  {
    map l | l in labels :: if labels[l].attached && labels[l].slot == slot then labels[l].(imageId := Some(id)) else labels[l]
  }

  /** Between two label states no label was added, and previews were at most cleared. */
  predicate OnlyCleared(before: map<LabelId, Label>, after: map<LabelId, Label>) {
    forall x :: x in after ==> x in before && (after[x].imageId.None? || after[x].imageId == before[x].imageId)
  }

  lemma OnlyClearedTransitive(a: map<LabelId, Label>, b: map<LabelId, Label>, c: map<LabelId, Label>)
    requires OnlyCleared(a, b) && OnlyCleared(b, c)
    ensures OnlyCleared(a, c)
  {
    forall x | x in c ensures x in a && (c[x].imageId.None? || c[x].imageId == a[x].imageId) {
      assert x in b;
    }
  }

  /** The labels after detaching through label `l`. */
  function DetachedLabels(labels: map<LabelId, Label>, m: seq<(string, Stored)>, l: LabelId): (r: map<LabelId, Label>)
    requires l in labels
    ensures r.Keys == labels.Keys
    ensures OnlyCleared(labels, r)
    ensures forall x :: x in r ==> r[x].slot == labels[x].slot && r[x].attached == labels[x].attached
  {
    if SlotHit(m, labels[l]) then ResetSlot(labels, labels[l].slot)
    else labels[l := labels[l].(imageId := None)]
  }

  /** The images after both labels of a row were detached, the first one first. */
  function RowDetachedImages(m: seq<(string, Stored)>, labels: map<LabelId, Label>, r: Row): seq<(string, Stored)>
    requires r.pic1 in labels && r.pic2 in labels
  {
    Detached(Detached(m, labels[r.pic1]), DetachedLabels(labels, m, r.pic1)[r.pic2])
  }

  /** The labels after both labels of a row were detached and the row left the document. */
  function RowDetachedLabels(m: seq<(string, Stored)>, labels: map<LabelId, Label>, r: Row): (r': map<LabelId, Label>)
    requires r.pic1 in labels && r.pic2 in labels
    ensures r'.Keys == labels.Keys
  {
    var labels1 := DetachedLabels(labels, m, r.pic1);
    var labels2 := DetachedLabels(labels1, Detached(m, labels[r.pic1]), r.pic2);
    labels2[r.pic1 := labels2[r.pic1].(attached := false)][r.pic2 := labels2[r.pic2].(attached := false)]
  }

  /** Whether label `x` belongs to one of the rows. */
  predicate InSomeRow(rows: seq<(string, Row)>, x: LabelId) {
    exists i :: 0 <= i < |rows| && (rows[i].1.pic1 == x || rows[i].1.pic2 == x)
  }

  /** With no image stored, removing a row clears its two labels' previews and takes them out of the document. */
  lemma RowDetachedWithoutImages(labels: map<LabelId, Label>, r: Row, x: LabelId)
    requires r.pic1 in labels && r.pic2 in labels && x in labels
    ensures RowDetachedImages([], labels, r) == []
    ensures RowDetachedLabels([], labels, r)[x] ==
      if x == r.pic1 || x == r.pic2 then labels[x].(imageId := None, attached := false) else labels[x]
  {
    assert FirstWithSlot([], labels[r.pic1].slot).None?;
    assert Detached([], labels[r.pic1]) == [];
    var labels1 := DetachedLabels(labels, [], r.pic1);
    assert labels1 == labels[r.pic1 := labels[r.pic1].(imageId := None)];
    assert FirstWithSlot([], labels1[r.pic2].slot).None?;
    assert DetachedLabels(labels1, [], r.pic2) == labels1[r.pic2 := labels1[r.pic2].(imageId := None)];
  }

  /** The labels after every row was removed, in order, with no image stored. */
  function RowsRemovedLabels(labels: map<LabelId, Label>, rows: seq<(string, Row)>): (r: map<LabelId, Label>)
    requires forall e :: e in rows ==> e.1.pic1 in labels && e.1.pic2 in labels
    ensures r.Keys == labels.Keys
    decreases |rows|
  {
    if rows == [] then labels
    else
      var next := RowDetachedLabels([], labels, rows[0].1);
      assert forall e :: e in rows[1..] ==> e in rows;
      RowsRemovedLabels(next, rows[1..])
  }

  /** After removing every row, exactly the rows' labels have lost their previews and left the document. */
  lemma {:induction false} RowsRemovedLabelsPointwise(labels: map<LabelId, Label>, rows: seq<(string, Row)>, x: LabelId)
    requires forall e :: e in rows ==> e.1.pic1 in labels && e.1.pic2 in labels
    requires x in labels
    ensures RowsRemovedLabels(labels, rows)[x] ==
      if InSomeRow(rows, x) then labels[x].(imageId := None, attached := false) else labels[x]
    decreases |rows|
  {
    if rows != [] {
      var next := RowDetachedLabels([], labels, rows[0].1);
      assert forall e :: e in rows[1..] ==> e in rows;
      assert rows[0] in rows;
      RowDetachedWithoutImages(labels, rows[0].1, x);
      RowsRemovedLabelsPointwise(next, rows[1..], x);
      InSomeRowCons(rows, x);
    }
  }

  /** A label is in some row exactly when it is in the first one or in some later one. */
  lemma InSomeRowCons(rows: seq<(string, Row)>, x: LabelId)
    requires rows != []
    ensures InSomeRow(rows, x) <==> rows[0].1.pic1 == x || rows[0].1.pic2 == x || InSomeRow(rows[1..], x)
  {
    if InSomeRow(rows, x) {
      var i :| 0 <= i < |rows| && (rows[i].1.pic1 == x || rows[i].1.pic2 == x);
      if i > 0 {
        assert rows[1..][i - 1] == rows[i];
      }
    }
    if InSomeRow(rows[1..], x) {
      var i :| 0 <= i < |rows[1..]| && (rows[1..][i].1.pic1 == x || rows[1..][i].1.pic2 == x);
      assert rows[i + 1] == rows[1..][i];
    }
  }

  /** A main label, when present, loses its preview. */
  function WithoutPreview(labels: map<LabelId, Label>, l: Option<LabelId>): (r: map<LabelId, Label>)
    ensures r.Keys == labels.Keys
  {
    if l.Some? && l.value in labels then labels[l.value := labels[l.value].(imageId := None)] else labels
  }

  lemma WithoutPreviewAt(labels: map<LabelId, Label>, l: Option<LabelId>, x: LabelId)
    requires x in labels
    ensures WithoutPreview(labels, l)[x] == if l == Some(x) then labels[x].(imageId := None) else labels[x]
  {
  }

  /** `upload-row-<n>` */
  function RowId(n: nat): string {
    "upload-row-" + NatToString(n)
  }

  /** `additional-<n>` */
  function SlotName(n: nat): string {
    "additional-" + NatToString(n)
  }

  /**
   * Rows are named from the current row count, so after a removal the next row can take
   * the name of one still present: with rows `upload-row-1` and `upload-row-2`, removing
   * the first and adding a row overwrites the entry of the second, and the count stays 1.
   */
  lemma RowIdCanCollide(row: Row, newRow: Row)
    ensures RowId(|[(RowId(2), row)]| + 1) == RowId(2)
    ensures |Set([(RowId(2), row)], RowId(2), newRow)| == 1
    ensures Get(Set([(RowId(2), row)], RowId(2), newRow), RowId(2)) == Some(newRow)
  {
    SetGet([(RowId(2), row)], RowId(2), newRow, RowId(2));
  }

  /** Different rows of one count get different slots. */
  lemma SlotNamesDistinct(size: nat)
    ensures SlotName(2 * size + 1) != SlotName(2 * size + 2)
  {
    if SlotName(2 * size + 1) == SlotName(2 * size + 2) {
      PrefixedNumberInjective("additional-", 2 * size + 1, 2 * size + 2);
    }
  }

  class UploadManager {
    var uploadedImages: seq<(string, Stored)>
    var uploadRows: seq<(string, Row)>
    var labels: map<LabelId, Label>
    const maxUploadRows: nat
    /** `#main-image-upload`'s lab and its icon twin, when the page has them. */
    const mainLabel: Option<LabelId>
    const mainIconLabel: Option<LabelId>

    ghost predicate Valid()
      reads this
    {
      && UniqueKeys(uploadedImages) && SlotsUnique(uploadedImages) && IdsNonEmpty(uploadedImages)
      && UniqueKeys(uploadRows) && maxUploadRows == MaxUploadRows && |uploadRows| <= maxUploadRows
      && (forall e :: e in uploadRows ==> e.1.pic1 in labels && e.1.pic2 in labels)
      && (mainLabel.Some? ==> mainLabel.value in labels)
      && (mainIconLabel.Some? ==> mainIconLabel.value in labels)
    }

    constructor(document: map<LabelId, Label>, mainLabel: Option<LabelId>, mainIconLabel: Option<LabelId>)
      requires mainLabel.Some? ==> mainLabel.value in document
      requires mainIconLabel.Some? ==> mainIconLabel.value in document
      ensures Valid()
      ensures uploadedImages == [] && uploadRows == [] && labels == document
      ensures this.mainLabel == mainLabel && this.mainIconLabel == mainIconLabel
    {
      uploadedImages := [];
      uploadRows := [];
      labels := document;
      maxUploadRows := MaxUploadRows;
      this.mainLabel := mainLabel;
      this.mainIconLabel := mainIconLabel;
    }

    /** `findImageBySlot`: the entries are scanned in insertion order. */
    method FindImageBySlot(slot: string) returns (r: Option<string>)
      ensures r == FirstWithSlot(uploadedImages, slot)
    {
      var i := 0;
      while i < |uploadedImages|
        invariant i <= |uploadedImages|
        invariant FirstWithSlot(uploadedImages[i..], slot) == FirstWithSlot(uploadedImages, slot)
      {
        if uploadedImages[i].1.slot == Some(slot) {
          return Some(uploadedImages[i].0);
        }
        assert uploadedImages[i..][1..] == uploadedImages[i + 1..];
        i := i + 1;
      }
      return None;
    }

    /**
     * `detachLabelImage`: with a slot that holds an image, that image is deleted and every
     * lab of the slot reset; otherwise the label's own image id, if any, is deleted and
     * the label reset. Either way the label's slot ends up without an image.
     */
    method DetachLabelImage(l: LabelId)
      requires Valid() && l in labels
      modifies this
      ensures Valid()
      ensures uploadedImages == Detached(old(uploadedImages), old(labels)[l])
      ensures labels == DetachedLabels(old(labels), old(uploadedImages), l)
      ensures uploadRows == old(uploadRows)
      ensures old(labels)[l].slot != "" ==> !HasSlot(uploadedImages, old(labels)[l].slot)
    {
      var lab := labels[l];
      var slotKey := lab.slot;
      if slotKey != "" {
        var imageId := FindImageBySlot(slotKey);
        if imageId.Some? && imageId.value != "" {
          DetachClearsSlot(uploadedImages, slotKey);
          RemoveImage(imageId.value);
          labels := ResetSlot(labels, slotKey);
          return;
        }
      }
      if Truthy(lab.imageId) {
        if slotKey != "" && HasSlot(Remove(uploadedImages, lab.imageId.value), slotKey) {
          RemoveHasSlot(uploadedImages, lab.imageId.value, slotKey);
        }
        RemoveImage(lab.imageId.value);
      }
      labels := labels[l := lab.(imageId := None)];
    }

    /** `uploadedImages.delete(id)`, keeping the store's invariants. */
    method RemoveImage(id: string)
      requires Valid()
      modifies this
      ensures Valid()
      ensures uploadedImages == Remove(old(uploadedImages), id)
      ensures uploadRows == old(uploadRows) && labels == old(labels)
    {
      RemoveSize(uploadedImages, id);
      RemoveKeepsSlotsUnique(uploadedImages, id);
      forall e | e in Remove(uploadedImages, id) ensures e.0 != "" {
        RemoveEntries(uploadedImages, id, e);
      }
      uploadedImages := Remove(uploadedImages, id);
    }

    /**
     * `handleImageUpload(file, lab)` with the clock reading for the new id and the
     * `FileReader` result passed in (`None` when reading fails). Nothing changes without a
     * file or a lab or for a file that fails validation; otherwise the label is detached
     * first and, once read, the image is stored under `temp_<now>` with the label's slot
     * and previewed on every lab of that slot (or on the label alone without one).
     */
    method HandleImageUpload(file: Option<File>, l: Option<LabelId>, dataUrl: Option<string>, now: nat)
      returns (stored: Option<string>)
      requires Valid() && (l.Some? ==> l.value in labels)
      modifies this
      ensures Valid()
      ensures uploadRows == old(uploadRows)
      ensures file.None? || l.None? || !ValidateImageFile(file.value).Accepted? ==>
        stored.None? && uploadedImages == old(uploadedImages) && labels == old(labels)
      ensures file.Some? && l.Some? && ValidateImageFile(file.value).Accepted? ==>
        var lab := old(labels)[l.value];
        var detached := Detached(old(uploadedImages), lab);
        var afterLabels := DetachedLabels(old(labels), old(uploadedImages), l.value);
        var slot := if lab.slot == "" then None else Some(lab.slot);
        && (dataUrl.None? ==> stored.None? && uploadedImages == detached && labels == afterLabels)
        && (dataUrl.Some? ==>
          && stored == Some(GenerateId(now))
          && uploadedImages == Set(detached, GenerateId(now), Stored(file.value, dataUrl.value, slot))
          && labels == (if lab.slot != "" then PreviewSlot(afterLabels, lab.slot, GenerateId(now))
                        else afterLabels[l.value := afterLabels[l.value].(imageId := Some(GenerateId(now)))]))
      ensures stored.Some? ==>
        (l.Some? && (old(labels)[l.value].slot != "" ==> FirstWithSlot(uploadedImages, old(labels)[l.value].slot) == stored))
    {
      stored := None;
      if file.None? || l.None? {
        return;
      }
      var validation := ValidateImageFile(file.value);
      if !validation.Accepted? {
        return;
      }
      DetachLabelImage(l.value);
      if dataUrl.None? {
        return;
      }
      StoreImage(l.value, file.value, dataUrl.value, now);
      stored := Some(GenerateId(now));
    }

    /**
     * The second half of `handleImageUpload`, once the file is read: the image is set under
     * `temp_<now>` with the label's slot and previewed on every label of the slot (on the
     * label alone without one). The slot must be free, as the preceding detach leaves it.
     */
    method StoreImage(l: LabelId, file: File, dataUrl: string, now: nat)
      requires Valid() && l in labels
      requires labels[l].slot != "" ==> !HasSlot(uploadedImages, labels[l].slot)
      modifies this
      ensures Valid()
      ensures uploadRows == old(uploadRows)
      ensures var slot := old(labels)[l].slot;
        uploadedImages == Set(old(uploadedImages), GenerateId(now), Stored(file, dataUrl, if slot == "" then None else Some(slot)))
      ensures labels == (if old(labels)[l].slot != "" then PreviewSlot(old(labels), old(labels)[l].slot, GenerateId(now))
                         else old(labels)[l := old(labels)[l].(imageId := Some(GenerateId(now)))])
      ensures old(labels)[l].slot != "" ==> FirstWithSlot(uploadedImages, old(labels)[l].slot) == Some(GenerateId(now))
    {
      var imageId := GenerateId(now);
      var slotKey := labels[l].slot;
      var entry := Stored(file, dataUrl, if slotKey == "" then None else Some(slotKey));
      SetKeepsSlotsUnique(uploadedImages, imageId, entry);
      SetKeys(uploadedImages, imageId, entry);
      forall e | e in Set(uploadedImages, imageId, entry) ensures e.0 != "" {
        SetMembers(uploadedImages, imageId, entry, e);
      }
      uploadedImages := Set(uploadedImages, imageId, entry);
      if slotKey != "" {
        labels := PreviewSlot(labels, slotKey, imageId);
      } else {
        labels := labels[l := labels[l].(imageId := Some(imageId))];
      }
    }

    /**
     * `addUploadRow` with the identities of the row's two new lab elements: refused at
     * three rows; otherwise the row `upload-row-<size+1>` with slots `additional-<2·size+1>`
     * and `additional-<2·size+2>` is set in the row map.
     */
    method AddUploadRow(pic1: LabelId, pic2: LabelId) returns (added: bool)
      requires Valid() && pic1 != pic2 && pic1 !in labels && pic2 !in labels
      modifies this
      ensures Valid()
      ensures added <==> |old(uploadRows)| < maxUploadRows
      ensures !added ==> uploadRows == old(uploadRows) && labels == old(labels)
      ensures added ==>
        var size := |old(uploadRows)|;
        && uploadRows == Set(old(uploadRows), RowId(size + 1), Row(pic1, pic2))
        && labels == old(labels)[pic1 := Label(SlotName(2 * size + 1), None, true)]
                                [pic2 := Label(SlotName(2 * size + 2), None, true)]
      ensures uploadedImages == old(uploadedImages)
      ensures |uploadRows| <= maxUploadRows
    {
      if |uploadRows| >= maxUploadRows {
        return false;
      }
      var size := |uploadRows|;
      var rowId := RowId(size + 1);
      labels := labels[pic1 := Label(SlotName(2 * size + 1), None, true)][pic2 := Label(SlotName(2 * size + 2), None, true)];
      SetKeys(uploadRows, rowId, Row(pic1, pic2));
      forall e | e in Set(uploadRows, rowId, Row(pic1, pic2)) ensures e.1.pic1 in labels && e.1.pic2 in labels {
        SetMembers(uploadRows, rowId, Row(pic1, pic2), e);
      }
      uploadRows := Set(uploadRows, rowId, Row(pic1, pic2));
      return true;
    }

    /**
     * `removeUploadRow(rowId)`: nothing for an unknown row; otherwise both labels of the
     * row are detached, in order, and the row leaves the document and the row map.
     */
    method RemoveUploadRow(rowId: string)
      requires Valid()
      modifies this
      ensures Valid()
      ensures !HasKey(old(uploadRows), rowId) ==>
        uploadRows == old(uploadRows) && uploadedImages == old(uploadedImages) && labels == old(labels)
      ensures HasKey(old(uploadRows), rowId) ==>
        && uploadRows == Remove(old(uploadRows), rowId)
        && |uploadRows| == |old(uploadRows)| - 1
        && uploadedImages == RowDetachedImages(old(uploadedImages), old(labels), Get(old(uploadRows), rowId).value)
        && labels == RowDetachedLabels(old(uploadedImages), old(labels), Get(old(uploadRows), rowId).value)
      ensures OnlyCleared(old(labels), labels)
    {
      var row := Get(uploadRows, rowId);
      if row.None? {
        return;
      }
      assert (rowId, row.value) in uploadRows;
      DetachRow(row.value);
      RemoveSize(uploadRows, rowId);
      forall e | e in Remove(uploadRows, rowId) ensures e.1.pic1 in labels && e.1.pic2 in labels {
        RemoveEntries(uploadRows, rowId, e);
      }
      uploadRows := Remove(uploadRows, rowId);
    }

    /** Both labels of a row are detached, in order, and the row's labels leave the document. */
    method DetachRow(r: Row)
      requires Valid() && r.pic1 in labels && r.pic2 in labels
      modifies this
      ensures Valid()
      ensures uploadRows == old(uploadRows) && labels.Keys == old(labels).Keys
      ensures uploadedImages == RowDetachedImages(old(uploadedImages), old(labels), r)
      ensures labels == RowDetachedLabels(old(uploadedImages), old(labels), r)
      ensures OnlyCleared(old(labels), labels)
    {
      ghost var labels0 := labels;
      DetachLabelImage(r.pic1);
      ghost var labels1 := labels;
      DetachLabelImage(r.pic2);
      OnlyClearedTransitive(labels0, labels1, labels);
      ghost var labels2 := labels;
      LeaveDocument(r);
      OnlyClearedTransitive(labels0, labels2, labels);
    }

    /** The row element is removed, taking its two labels out of the document. */
    method LeaveDocument(r: Row)
      requires Valid() && r.pic1 in labels && r.pic2 in labels
      modifies this
      ensures Valid()
      ensures uploadRows == old(uploadRows) && uploadedImages == old(uploadedImages)
      ensures labels == old(labels)[r.pic1 := old(labels)[r.pic1].(attached := false)][r.pic2 := old(labels)[r.pic1 := old(labels)[r.pic1].(attached := false)][r.pic2].(attached := false)]
      ensures labels.Keys == old(labels).Keys && OnlyCleared(old(labels), labels)
    {
      var updated := labels[r.pic1 := labels[r.pic1].(attached := false)];
      updated := updated[r.pic2 := updated[r.pic2].(attached := false)];
      assert updated.Keys == labels.Keys;
      labels := updated;
    }

    /** `getFiles`: one file per stored image, in insertion order. */
    method GetFiles() returns (files: seq<File>)
      ensures |files| == |uploadedImages|
      ensures forall i :: 0 <= i < |files| ==> files[i] == uploadedImages[i].1.file
    {
      files := [];
      for i := 0 to |uploadedImages|
        invariant |files| == i
        invariant forall j :: 0 <= j < i ==> files[j] == uploadedImages[j].1.file
      {
        files := files + [uploadedImages[i].1.file];
      }
    }

    /**
     * `clear`: the images are dropped, the main labels reset, and every row removed
     * (`forEach` visits each remaining row, which deletes itself). With no image left, each
     * row label only loses its preview and leaves the document; every other label is kept.
     */
    method Clear()
      requires Valid()
      modifies this
      ensures Valid()
      ensures uploadedImages == [] && uploadRows == []
      ensures labels.Keys == old(labels).Keys
      ensures forall x :: x in labels ==>
        labels[x] == (if InSomeRow(old(uploadRows), x) then old(labels)[x].(imageId := None, attached := false)
                      else if Some(x) == mainLabel || Some(x) == mainIconLabel then old(labels)[x].(imageId := None)
                      else old(labels)[x])
    {
      uploadedImages := [];
      labels := WithoutPreview(WithoutPreview(labels, mainLabel), mainIconLabel);
      ghost var reset := labels;
      RemoveAllRows();
      forall x | x in labels
        ensures labels[x] == (if InSomeRow(old(uploadRows), x) then old(labels)[x].(imageId := None, attached := false)
                              else if Some(x) == mainLabel || Some(x) == mainIconLabel then old(labels)[x].(imageId := None)
                              else old(labels)[x])
      {
        RowsRemovedLabelsPointwise(reset, old(uploadRows), x);
        WithoutPreviewAt(old(labels), mainLabel, x);
        WithoutPreviewAt(WithoutPreview(old(labels), mainLabel), mainIconLabel, x);
      }
    }

    /** `clear`'s `forEach` over the rows: each remaining row removes itself, in order. */
    method RemoveAllRows()
      requires Valid() && uploadedImages == []
      modifies this
      ensures Valid() && uploadedImages == [] && uploadRows == []
      ensures labels == RowsRemovedLabels(old(labels), old(uploadRows))
    {
      while uploadRows != []
        invariant Valid() && uploadedImages == []
        invariant RowsRemovedLabels(labels, uploadRows) == RowsRemovedLabels(old(labels), old(uploadRows))
        decreases |uploadRows|
      {
        RemoveFirstRow();
      }
    }

    /** One step of `clear`'s `forEach`: the first remaining row removes itself. */
    method RemoveFirstRow()
      requires Valid() && uploadedImages == [] && uploadRows != []
      modifies this
      ensures Valid() && uploadedImages == []
      ensures uploadRows == old(uploadRows)[1..]
      ensures labels == RowDetachedLabels([], old(labels), old(uploadRows)[0].1)
    {
      var first := uploadRows[0];
      assert Get(uploadRows, first.0) == Some(first.1);
      assert HasKey(uploadRows, first.0);
      assert !HasKey(uploadRows[1..], first.0);
      RemoveEntries(uploadRows[1..], first.0, first);
      assert Remove(uploadRows, first.0) == uploadRows[1..];
      RowDetachedWithoutImages(labels, first.1, first.1.pic1);
      RemoveUploadRow(first.0);
    }
  }
}
