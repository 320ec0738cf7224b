/** `ChangeFieldHolderMemento`: the undo/redo record for one field of a field
    holder in the editor. A field holder is modelled as a map from field
    attributes to values; `GetValue` and `SetValue` read and write that map. */
module Memento {
  import opened Wrappers
  import opened Errors

  /** A field's value, as the editor stores it in an `object`: null, or a
      reference to some boxed value, identified by number. */
  datatype FieldValue = Null | Object(id: nat)

  /** A `FieldAttribute`: which field of the holder the memento is about. Two
      attributes are equal when they name the same field. */
  datatype FieldAttribute = FieldAttribute(name: string)

  /** The value a holder with `fields` gives for `attribute`: null when it has no
      such field. */
  function ValueOf(fields: map<FieldAttribute, FieldValue>, attribute: FieldAttribute): FieldValue
  {
    if attribute in fields then fields[attribute] else Null
  }

  /** The holder's fields after `SetValue(attribute, value)`. */
  function Written(fields: map<FieldAttribute, FieldValue>, attribute: FieldAttribute, value: FieldValue): (r: map<FieldAttribute, FieldValue>)
    ensures ValueOf(r, attribute) == value
    ensures forall f :: f != attribute ==> ValueOf(r, f) == ValueOf(fields, f)
    ensures r.Keys == fields.Keys + {attribute}
  {
    fields[attribute := value]
  }

  /** An `IFieldHolder`: its fields and the number of times it was invalidated
      (asked to repaint). */
  class FieldHolder {
    var fields: map<FieldAttribute, FieldValue>
    var invalidations: nat

    constructor(fields: map<FieldAttribute, FieldValue>)
      ensures this.fields == fields && invalidations == 0
    {
      this.fields := fields;
      invalidations := 0;
    }

    /** `fieldAttribute.GetValue(holder)`. */
    function GetValue(attribute: FieldAttribute): FieldValue
      reads this
    {
      ValueOf(fields, attribute)
    }

    /** `fieldAttribute.SetValue(holder, value)`. */
    method SetValue(attribute: FieldAttribute, value: FieldValue)
      modifies this
      ensures fields == Written(old(fields), attribute, value)
      ensures invalidations == old(invalidations)
    {
      fields := fields[attribute := value];
    }

    /** `Invalidate()`: the holder is marked for repainting; no field changes. */
    method Invalidate()
      modifies this
      ensures fields == old(fields)
      ensures invalidations == old(invalidations) + 1
    {
      invalidations := invalidations + 1;
    }
  }

  class ChangeFieldHolderMemento {
    const fieldAttribute: FieldAttribute
    const oldValue: FieldValue
    var fieldHolder: FieldHolder?

    /** Records the holder, the field and the field's current value. */
    constructor(fieldHolder: FieldHolder, fieldAttribute: FieldAttribute)
      ensures this.fieldHolder == fieldHolder && this.fieldAttribute == fieldAttribute
      ensures oldValue == fieldHolder.GetValue(fieldAttribute)
    {
      this.fieldHolder := fieldHolder;
      this.fieldAttribute := fieldAttribute;
      oldValue := fieldHolder.GetValue(fieldAttribute);
    }

    /** `Merge`: `other` is null when the other memento is not a
        `ChangeFieldHolderMemento`. Two mementos merge when they are about the
        same field of the same holder; reading the holder of a disposed `other`
        throws. */
    function Merge(other: ChangeFieldHolderMemento?): (r: Result<bool, Error>)
      reads this, other
      ensures r == Failure(NullReference) <==> other != null && other.fieldHolder == null
      ensures r == Success(true) <==>
        other != null && other.fieldHolder != null && other.fieldHolder == fieldHolder && other.fieldAttribute == fieldAttribute
    {
      if other != null then
        if other.fieldHolder == null then Failure(NullReference)
        else if other.fieldHolder == fieldHolder then
          if other.fieldAttribute == fieldAttribute then Success(true)
          else Success(false)
        else Success(false)
      else Success(false)
    }

    /** `Restore`: invalidates the holder, records the field's current value in a
        new memento, and writes the recorded old value back. A disposed memento
        has no holder and throws. */
    method Restore() returns (r: Result<ChangeFieldHolderMemento, Error>)
      modifies fieldHolder
      ensures fieldHolder == old(fieldHolder)
      ensures fieldHolder == null ==> r == Failure(NullReference)
      ensures fieldHolder != null ==>
        && r.Success? && fresh(r.value)
        && r.value.fieldHolder == fieldHolder && r.value.fieldAttribute == fieldAttribute
        && r.value.oldValue == ValueOf(old(fieldHolder.fields), fieldAttribute)
        && fieldHolder.fields == Written(old(fieldHolder.fields), fieldAttribute, oldValue)
        && fieldHolder.invalidations == old(fieldHolder.invalidations) + 1
    {
      if fieldHolder == null {
        return Failure(NullReference);
      }
      fieldHolder.Invalidate();
      var oldState := new ChangeFieldHolderMemento(fieldHolder, fieldAttribute);
      fieldHolder.SetValue(fieldAttribute, oldValue);
      return Success(oldState);
    }

    /** `Dispose()`: `Dispose(true)`; finalisation is not modelled. */
    method Dispose()
      modifies this
      ensures fieldHolder == null
    {
      DisposeManaged(true);
    }

    /** `Dispose(bool)`: drops the reference to the holder, whatever `disposing` is. */
    method DisposeManaged(disposing: bool)
      modifies this
      ensures fieldHolder == null
    {
      fieldHolder := null;
    }
  }

  // ---------------------------------------------------------------------------
  // Properties

  /** Undo then redo: restoring a memento records the value it overwrites, and
      restoring that record puts every field back as it read before the undo. The
      maps are equal too unless the field was missing, in which case it now holds
      null explicitly. */
  lemma RestoreRoundTrip(fields: map<FieldAttribute, FieldValue>, attribute: FieldAttribute, saved: FieldValue)
    ensures var undone := Written(fields, attribute, saved);
      var redone := Written(undone, attribute, ValueOf(fields, attribute));
      && (forall f :: ValueOf(redone, f) == ValueOf(fields, f))
      && (attribute in fields ==> redone == fields)
  {
    var redone := Written(Written(fields, attribute, saved), attribute, ValueOf(fields, attribute));
    if attribute in fields {
      assert redone.Keys == fields.Keys;
      forall f | f in fields ensures redone[f] == fields[f] {
        assert ValueOf(redone, f) == ValueOf(fields, f);
      }
    }
  }

  /** Redo then undo: restoring the memento that a restore returned, and then the
      original again, leaves the field with the original memento's old value. */
  lemma RestoreTwiceIdempotent(fields: map<FieldAttribute, FieldValue>, attribute: FieldAttribute, saved: FieldValue)
    ensures var undone := Written(fields, attribute, saved);
      var redone := Written(undone, attribute, ValueOf(fields, attribute));
      Written(redone, attribute, saved) == undone
  {
  }

  /** Merging is symmetric between mementos that are not disposed, and a memento
      that is not disposed merges with itself. */
  lemma MergeSymmetric(a: ChangeFieldHolderMemento, b: ChangeFieldHolderMemento)
    requires a.fieldHolder != null && b.fieldHolder != null
    ensures a.Merge(b) == b.Merge(a)
    ensures a.Merge(a) == Success(true)
  {
  }
}
