/** The status editor form (src/components/AdminPanel/StatusForm/StatusForm.tsx): its
    fields, the initialisation from the status being edited, validation, and the input it
    hands to its save callback. */
module StatusForm {
  import opened Types
  import opened Text
  import Seqs
  import opened ColorPalette
  import opened StatusStorage

  datatype LabelError = Required | TooShort | TooLong | NotPrintable | Duplicate

  /** `errors`: a label message and a description message, each possibly absent. */
  datatype FormErrors = FormErrors(labelError: Option<LabelError>, descriptionTooLong: bool)
  {
    predicate None()
    {
      labelError.None? && !descriptionTooLong
    }
  }

  /** What the form passes to its save callback. */
  datatype FormInput = FormInput(displayLabel: string, description: string, color: string,
                                 colorName: string, position: int)

  /** Another status (any status when creating) has the trimmed label, up to case. */
  predicate DuplicateOf(statuses: seq<Status>, text: string, statusId: Option<string>)
  {
    exists i :: 0 <= i < |statuses| && ToLower(statuses[i].displayLabel) == ToLower(Trim(text)) &&
      (statusId.None? || statuses[i].id != statusId.value)
  }

  /** The label checks as written: the emptiness check trims, the two length checks do not.
      The first failing check, in this order, decides the message. */
  function ValidateLabelAsWritten(text: string, statuses: seq<Status>, statusId: Option<string>)
    : (r: Option<LabelError>)
    ensures r.None? <==>
      && Trim(text) != ""
      && MIN_STATUS_LABEL_LENGTH <= Utf16Length(text) <= MAX_STATUS_LABEL_LENGTH
      && AllPrintableAscii(text)
      && !DuplicateOf(statuses, text, statusId)
    ensures r == Some(Required) <==> Trim(text) == ""
    ensures r == Some(TooShort) <==> Trim(text) != "" && Utf16Length(text) < MIN_STATUS_LABEL_LENGTH
    ensures r == Some(TooLong) <==> Trim(text) != "" && Utf16Length(text) > MAX_STATUS_LABEL_LENGTH
    ensures r == Some(NotPrintable) <==>
      && Trim(text) != ""
      && MIN_STATUS_LABEL_LENGTH <= Utf16Length(text) <= MAX_STATUS_LABEL_LENGTH
      && !AllPrintableAscii(text)
    ensures r == Some(Duplicate) <==>
      && Trim(text) != ""
      && MIN_STATUS_LABEL_LENGTH <= Utf16Length(text) <= MAX_STATUS_LABEL_LENGTH
      && AllPrintableAscii(text)
      && DuplicateOf(statuses, text, statusId)
  {
    if Trim(text) == "" then Some(Required)
    else if Utf16Length(text) < MIN_STATUS_LABEL_LENGTH then Some(TooShort)
    else if Utf16Length(text) > MAX_STATUS_LABEL_LENGTH then Some(TooLong)
    else if !AllPrintableAscii(text) then Some(NotPrintable)
    else if DuplicateOf(statuses, text, statusId) then Some(Duplicate)
    else None
  }

  /** A label that is two characters once trimmed passes the as-written checks, and the form
      then saves a label shorter than the minimum. */
  lemma ShortTrimmedLabelAccepted()
    ensures ValidateLabelAsWritten("ab ", [], None).None?
    ensures |Trim("ab ")| < MIN_STATUS_LABEL_LENGTH
    ensures Utf16Length(Trim("ab ")) < MIN_STATUS_LABEL_LENGTH
  {
    assert "ab " == "ab" + [' '];
    TrimTrailingSpace("ab", ' ');
    assert AllPrintableAscii("ab ");
    AsciiUtf16Length("ab ");
    assert !DuplicateOf([], "ab ", None);
  }


  /** The label checks with both length bounds applied to the trimmed label, which is the
      label the form saves. */
  function ValidateLabel(text: string, statuses: seq<Status>, statusId: Option<string>)
    : (r: Option<LabelError>)
    ensures r.None? <==>
      && MIN_STATUS_LABEL_LENGTH <= Utf16Length(Trim(text)) <= MAX_STATUS_LABEL_LENGTH
      && AllPrintableAscii(text)
      && !DuplicateOf(statuses, text, statusId)
    ensures r == Some(Required) <==> Trim(text) == ""
  {
    if Trim(text) == "" then Some(Required)
    else if Utf16Length(Trim(text)) < MIN_STATUS_LABEL_LENGTH then Some(TooShort)
    else if Utf16Length(Trim(text)) > MAX_STATUS_LABEL_LENGTH then Some(TooLong)
    else if !AllPrintableAscii(text) then Some(NotPrintable)
    else if DuplicateOf(statuses, text, statusId) then Some(Duplicate)
    else None
  }

  /** On a label without surrounding white space the two rule sets give the same answer:
      the as-written checks differ only on what trimming removes. */
  lemma AgreeOnTrimmedLabel(text: string, statuses: seq<Status>, statusId: Option<string>)
    requires Trim(text) == text
    ensures ValidateLabelAsWritten(text, statuses, statusId) == ValidateLabel(text, statuses, statusId)
  {
  }

  /** A label the form accepts is saved trimmed, non-empty and no longer than the maximum,
      but possibly shorter than the minimum. */
  lemma AcceptedLabelSaved(text: string, statuses: seq<Status>, statusId: Option<string>)
    requires ValidateLabelAsWritten(text, statuses, statusId).None?
    ensures Trim(text) != "" && |Trim(text)| <= MAX_STATUS_LABEL_LENGTH
    ensures Utf16Length(Trim(text)) <= MAX_STATUS_LABEL_LENGTH
  {
    TrimUtf16Length(text);
  }

  /** `description && description.length > 100`, the length in UTF-16 units. */
  predicate DescriptionTooLong(description: string)
  {
    description != "" && Utf16Length(description) > 100
  }

  /** The status being edited: looked up only for a truthy id. */
  function ExistingStatus(statuses: seq<Status>, statusId: Option<string>): (r: Option<Status>)
    ensures r.Some? ==> TruthyOpt(statusId) && r.value in statuses && r.value.id == statusId.value
    ensures TruthyOpt(statusId) ==> r == GetStatusById(statuses, statusId.value)
    ensures r.Some? ==> exists i :: (0 <= i < |statuses| && statuses[i] == r.value &&
                                     forall j :: 0 <= j < i ==> statuses[j].id != statusId.value)
  {
    if TruthyOpt(statusId) then GetStatusById(statuses, statusId.value) else None
  }

  /** A label the form accepts when creating is one the registry's add accepts: the two
      duplicate checks agree once the form has trimmed the label. */
  lemma AcceptedLabelNotTaken(text: string, statuses: seq<Status>)
    requires ValidateLabelAsWritten(text, statuses, None).None?
    ensures !LabelTaken(statuses, Trim(text))
    ensures Trim(text) != ""
  {
    forall i | 0 <= i < |statuses|
      ensures !SameLabel(statuses[i].displayLabel, Trim(text))
    {
      assert !(ToLower(statuses[i].displayLabel) == ToLower(Trim(text)));
    }
  }

  /** A label the form accepts when editing a status collides with no other status's label,
      so the registry's update does not refuse it, and it is never empty, so the update's
      duplicate check always runs. */
  lemma AcceptedLabelNotTakenByOther(text: string, statuses: seq<Status>, statusId: string, k: int)
    requires ValidateLabelAsWritten(text, statuses, Some(statusId)).None?
    requires IdsUnique(statuses)
    requires 0 <= k < |statuses| && statuses[k].id == statusId
    ensures !LabelTakenByOther(statuses, k, Trim(text))
    ensures Trim(text) != ""
  {
    forall i | 0 <= i < |statuses| && i != k
      ensures !SameLabel(statuses[i].displayLabel, Trim(text))
    {
      if i < k {
        assert DistinctIds()(statuses[i], statuses[k]);
      } else {
        assert DistinctIds()(statuses[k], statuses[i]);
      }
      assert statuses[i].id != statusId;
    }
  }

  /** The form's state. */
  class StatusEditor {
    var labelText: string
    var description: string
    var colorId: string
    var errors: FormErrors
    const statusId: Option<string>

    /** The initial state: empty fields, the first palette colour, no errors. */
    constructor (statusId: Option<string>)
      ensures this.statusId == statusId
      ensures labelText == "" && description == "" && colorId == Palette()[0].id && errors.None()
    {
      this.statusId := statusId;
      labelText := "";
      description := "";
      colorId := Palette()[0].id;
      errors := FormErrors(None, false);
    }

    /** The initialisation effect: load the edited status's fields, or reset them. */
    method Initialize(statuses: seq<Status>)
      modifies this
      ensures var existing := ExistingStatus(statuses, statusId);
        existing.Some? ==>
          && labelText == existing.value.displayLabel
          && description == existing.value.description
          && colorId == existing.value.color
      ensures ExistingStatus(statuses, statusId).None? ==>
        labelText == "" && description == "" && colorId == Palette()[0].id
      ensures errors.None()
    {
      var existing := ExistingStatus(statuses, statusId);
      if existing.Some? {
        labelText := existing.value.displayLabel;
        description := existing.value.description;
        colorId := existing.value.color;
      } else {
        labelText := "";
        description := "";
        colorId := Palette()[0].id;
      }
      errors := FormErrors(None, false);
    }

    /** `validate`: records the errors and reports whether there are none. */
    method Validate(statuses: seq<Status>) returns (ok: bool)
      modifies this
      ensures labelText == old(labelText) && description == old(description) && colorId == old(colorId)
      ensures errors == FormErrors(ValidateLabelAsWritten(labelText, statuses, statusId), DescriptionTooLong(description))
      ensures ok <==> errors.None()
    {
      errors := FormErrors(ValidateLabelAsWritten(labelText, statuses, statusId), DescriptionTooLong(description));
      ok := errors.None();
    }

    /** `handleSubmit`: nothing when validation fails or the colour is not in the palette;
        otherwise the trimmed fields, the colour and its name, and the edited status's
        position, or one past the last for a new status. */
    method HandleSubmit(statuses: seq<Status>) returns (saved: Option<FormInput>)
      modifies this
      ensures labelText == old(labelText) && description == old(description) && colorId == old(colorId)
      ensures errors == FormErrors(ValidateLabelAsWritten(labelText, statuses, statusId), DescriptionTooLong(description))
      ensures saved.Some? <==> errors.None() && GetColorById(colorId).Some?
      ensures saved.Some? ==>
        && saved.value.displayLabel == Trim(labelText)
        && saved.value.displayLabel != "" && |saved.value.displayLabel| <= MAX_STATUS_LABEL_LENGTH
        && Utf16Length(saved.value.displayLabel) <= MAX_STATUS_LABEL_LENGTH
        && saved.value.description == Trim(description)
        && saved.value.color == colorId
        && saved.value.colorName == GetColorById(colorId).value.name
        && saved.value.position == (match ExistingStatus(statuses, statusId)
                                    case Some(s) => s.position
                                    case None => |statuses| + 1)
    {
      var ok := Validate(statuses);
      if !ok {
        return None;
      }
      var colorConfig := Seqs.Find(Palette(), HasColorId(colorId));
      if colorConfig.None? {
        return None;
      }
      var existing := ExistingStatus(statuses, statusId);
      var position := if existing.Some? then existing.value.position else |statuses| + 1;
      AcceptedLabelSaved(labelText, statuses, statusId);
      saved := Some(FormInput(Trim(labelText), Trim(description), colorId, colorConfig.value.name, position));
    }
  }

  /** Every seeded status's colour is in the palette under the name the status carries, so
      the form finds it and saves that same name when a seeded status is edited. */
  lemma DefaultColorsInPalette(now: string)
    ensures forall i :: 0 <= i < |DefaultStatuses(now)| ==>
      var s := DefaultStatuses(now)[i];
      GetColorById(s.color).Some? && GetColorById(s.color).value.name == s.colorName
  {
    var d := DefaultStatuses(now);
    forall i | 0 <= i < |d|
      ensures GetColorById(d[i].color).Some? && GetColorById(d[i].color).value.name == d[i].colorName
    {
      var k := if i == 0 then 6 else i - 1;
      FoundAt(k, d[i].color);
    }
  }
}
