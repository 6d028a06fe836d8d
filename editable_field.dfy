/**
 * An in-place editable field of the project page: a display that turns
 * into an input on click, saved with Enter or the check button and
 * abandoned with Escape or the cross button. Saving awaits the page's
 * `onSave`, which either completes or throws.
 */
module EditableField {

  /** `FieldType` */
  datatype FieldType = Text | Textarea | Date | Url

  /** What a key press in the input does. */
  datatype KeyAction = SaveEdit | CancelEdit | Ignore

  /** `handleKeyDown`: Enter saves except in a text area (where it breaks
      the line), Escape cancels, any other key is typed. */
  function KeyActionOf(key: string, fieldType: FieldType): (r: KeyAction)
    ensures r == SaveEdit <==> key == "Enter" && fieldType != Textarea
    ensures r == CancelEdit <==> key == "Escape"
  {
    if key == "Enter" && fieldType != Textarea then SaveEdit
    else if key == "Escape" then CancelEdit
    else Ignore
  }

  /** The field's state; `value` is the page's prop and `saves` the values
      handed to `onSave`, in order. */
  class Field {
    const fieldType: FieldType
    var value: string
    var isEditing: bool
    var editValue: string
    var isSaving: bool
    var saves: seq<string>

    constructor(initial: string, kind: FieldType)
      ensures value == initial && fieldType == kind
      ensures !isEditing && editValue == initial && !isSaving && saves == []
    {
      fieldType := kind;
      value := initial;
      isEditing := false;
      editValue := initial;
      isSaving := false;
      saves := [];
    }

    /** The effect on `value`: a new prop resets the draft to it. */
    method ValueChanged(newValue: string)
      modifies this
      ensures value == newValue && editValue == newValue
      ensures isEditing == old(isEditing) && isSaving == old(isSaving) && saves == old(saves)
    {
      value := newValue;
      editValue := newValue;
    }

    /** A click on the display opens the input. */
    method StartEditing()
      modifies this
      ensures isEditing
      ensures value == old(value) && editValue == old(editValue) && isSaving == old(isSaving) && saves == old(saves)
    {
      isEditing := true;
    }

    /** Typing in the input. */
    method Type(text: string)
      modifies this
      ensures editValue == text
      ensures value == old(value) && isEditing == old(isEditing) && isSaving == old(isSaving) && saves == old(saves)
    {
      editValue := text;
    }

    /** `handleSave`; `succeeds` says whether `onSave` completes. An
        unchanged draft closes the input without calling `onSave`; a save
        that completes closes it; one that throws keeps it open with the
        draft reset to `value`. Either way the saving flag ends cleared.
        The input and its buttons are disabled while a save is under way,
        so no save starts during another. */
    method HandleSave(succeeds: bool)
      requires !isSaving
      modifies this
      ensures if old(editValue) == old(value) then
                !isEditing && saves == old(saves) && editValue == old(editValue)
              else
                && saves == old(saves) + [old(editValue)]
                && (succeeds ==> !isEditing && editValue == old(editValue))
                && (!succeeds ==> isEditing == old(isEditing) && editValue == old(value))
      ensures !isSaving && value == old(value)
    {
      if editValue == value {
        isEditing := false;
        return;
      }
      isSaving := true;
      saves := saves + [editValue];
      if succeeds {
        isEditing := false;
      } else {
        editValue := value;
      }
      isSaving := false;
    }

    /** `handleCancel`: the draft is dropped and the input closed. */
    method HandleCancel()
      modifies this
      ensures editValue == value && !isEditing
      ensures value == old(value) && isSaving == old(isSaving) && saves == old(saves)
    {
      editValue := value;
      isEditing := false;
    }

    /** `handleKeyDown` */
    method HandleKeyDown(key: string, succeeds: bool)
      requires !isSaving
      modifies this
      ensures KeyActionOf(key, fieldType) == Ignore ==>
                value == old(value) && isEditing == old(isEditing) && editValue == old(editValue)
                && isSaving == old(isSaving) && saves == old(saves)
      ensures KeyActionOf(key, fieldType) == CancelEdit ==> editValue == value && !isEditing && saves == old(saves)
      ensures KeyActionOf(key, fieldType) == SaveEdit ==>
                && !isSaving
                && if old(editValue) == old(value) then
                     !isEditing && saves == old(saves) && editValue == old(editValue)
                   else
                     && saves == old(saves) + [old(editValue)]
                     && (succeeds ==> !isEditing && editValue == old(editValue))
                     && (!succeeds ==> isEditing == old(isEditing) && editValue == old(value))
      ensures value == old(value)
    {
      if key == "Enter" && fieldType != Textarea {
        HandleSave(succeeds);
      } else if key == "Escape" {
        HandleCancel();
      }
    }
  }
}
