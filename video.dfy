/** The video model's required-field check over its descriptive metadata. */
module VideoModel {
  /** The descriptive metadata datastream: each field that is set holds a
      list of values; a field that is not a key reads as nil. */
  type Metadata = map<string, seq<string>>

  /** `is_valid_metadata_field?`: a nil field is never valid; a field that
      is not required is valid as soon as it is set, even to an empty list;
      a required field also needs a first value that is not the empty string. */
  function IsValidMetadataField(desc: Metadata, field: string, required: bool): (valid: bool)
    ensures valid ==> field in desc
    ensures valid && required ==> |desc[field]| > 0
  {
    if field in desc then
      if required then |desc[field]| > 0 && desc[field][0] != ""
      else true
    else false
  }

  /** One entry added to a record's validation errors. */
  datatype ValidationError = ValidationError(attribute: string, message: string)

  const REQUIRED_MESSAGE := "This field is required"

  /** The errors the creator check adds: one, exactly when the creator field
      is invalid as a required field. */
  function CreatorErrors(desc: Metadata, creator: string): (es: seq<ValidationError>)
    ensures |es| <= 1
    ensures es == [] <==> IsValidMetadataField(desc, creator, true)
    ensures forall k :: 0 <= k < |es| ==> es[k] == ValidationError("creator", REQUIRED_MESSAGE)
  {
    if IsValidMetadataField(desc, creator, true) then [] else [ValidationError("creator", REQUIRED_MESSAGE)]
  }

  class Video {
    const descMetadata: Metadata
    /** The metadata field the creator is read from. */
    const creator: string
    var errors: seq<ValidationError>

    constructor (descMetadata: Metadata, creator: string)
      ensures this.descMetadata == descMetadata && this.creator == creator && errors == []
    {
      this.descMetadata := descMetadata;
      this.creator := creator;
      errors := [];
    }

    /** The creator check of `validate`: the errors already recorded stay,
        and the creator error is added after them when the field is invalid. */
    method Validate()
      modifies this`errors
      ensures errors == old(errors) + CreatorErrors(descMetadata, creator)
    {
      if !IsValidMetadataField(descMetadata, creator, true) {
        errors := errors + [ValidationError("creator", REQUIRED_MESSAGE)];
      }
    }
  }

  /** A nil field is invalid, required or not. */
  lemma NilIsInvalid(desc: Metadata, field: string, required: bool)
    requires field !in desc
    ensures !IsValidMetadataField(desc, field, required)
  {
  }

  /** A field that is set but not required is valid, even with no values. */
  lemma OptionalAcceptsAnySetField(desc: Metadata, field: string)
    requires field in desc
    ensures IsValidMetadataField(desc, field, false)
    ensures IsValidMetadataField(desc[field := []], field, false)
  {
  }

  /** A required field is valid exactly when it is set, has a value, and its
      first value is not empty. */
  lemma RequiredRule(desc: Metadata, field: string)
    ensures IsValidMetadataField(desc, field, true) <==>
      field in desc && |desc[field]| > 0 && desc[field][0] != ""
  {
  }

  /** Requiring a field only ever rejects more. */
  lemma RequiredImpliesOptional(desc: Metadata, field: string)
    ensures IsValidMetadataField(desc, field, true) ==> IsValidMetadataField(desc, field, false)
  {
  }

  /** Only the first value is looked at: the values after it never change
      the verdict. */
  lemma OnlyFirstValueMatters(desc: Metadata, field: string, first: string, rest1: seq<string>, rest2: seq<string>, required: bool)
    ensures IsValidMetadataField(desc[field := [first] + rest1], field, required) ==
      IsValidMetadataField(desc[field := [first] + rest2], field, required)
  {
  }

  /** An empty first value fails the required check whatever follows; an
      empty value after a non-empty first one does not. */
  lemma FirstValueExamples(desc: Metadata, field: string)
    ensures !IsValidMetadataField(desc[field := ["", "x"]], field, true)
    ensures IsValidMetadataField(desc[field := ["x", ""]], field, true)
  {
    assert ["x", ""][0] == "x";
  }

  /** Validation keeps every earlier error, in place, and adds at most one:
      the creator error, exactly when the creator field is invalid. */
  lemma ValidateOnlyAppends(desc: Metadata, creator: string, before: seq<ValidationError>)
    ensures var after := before + CreatorErrors(desc, creator);
      && |before| <= |after| <= |before| + 1
      && after[..|before|] == before
      && (|after| == |before| + 1 <==> !IsValidMetadataField(desc, creator, true))
  {
    assert (before + CreatorErrors(desc, creator))[..|before|] == before;
  }
}
