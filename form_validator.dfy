/**
 * FormValidator in main.js: per-field rules chosen by the field's type, and a
 * form check that runs them on every required field.
 *
 * A field is the part of an input, textarea or select element the rules read:
 * its type, its raw value, whether it carries `required`, and the raw text of
 * its min, max, minlength and maxlength attributes (None when absent). The
 * `is-invalid` mark and feedback text of a field are represented by the error
 * it currently shows, None when it shows none.
 */
module Forms {
  import opened Js
  import opened Utils

  datatype FieldType = EmailType | TelType | NumberType | TextType | TextareaType | OtherType

  datatype Field = Field(
    kind: FieldType,
    value: string,
    required: bool,
    min: Option<string>,
    max: Option<string>,
    minLength: Option<string>,
    maxLength: Option<string>)

  /** The error a field shows; the two range bounds and the length limits are the parsed attributes the message quotes (None for NaN). */
  datatype FieldError =
    | BadEmail
    | BadPhone
    | OutOfRange(min: Option<int>, max: Option<int>)
    | Required
    | TooShort(minLength: int)
    | TooLong(maxLength: int)

  const GeneralErrorText: string := "Por favor, corrige los errores antes de continuar."

  /** `a < b` on two results of parseInt: any comparison with NaN is false. */
  predicate Below(a: Option<int>, b: Option<int>) {
    a.Some? && b.Some? && a.value < b.value
  }

  /** A parsed length limit is truthy when it is a number other than 0. */
  predicate TruthyLimit(n: Option<int>) {
    n.Some? && n.value != 0
  }

  /** The email case: an empty value is valid, otherwise the value must match the email pattern. */
  function EmailVerdict(value: string): (r: Option<FieldError>)
    ensures r.None? <==> value == [] || EmailPattern(value)
    ensures r.Some? ==> r.value == BadEmail
  {
    if value != [] && !IsValidEmail(value) then Some(BadEmail) else None
  }

  /** The tel case: an empty value is valid, otherwise the value with its whitespace removed must match the phone pattern. */
  function PhoneVerdict(value: string): (r: Option<FieldError>)
    ensures r.None? <==> value == [] || PhonePattern(RemoveSpaces(value))
    ensures r.Some? ==> r.value == BadPhone
  {
    if value != [] && !IsValidChileanPhone(value) then Some(BadPhone) else None
  }

  /**
   * The number case: the parsed value is compared with the parsed bounds, and
   * a value or bound that is NaN never fails a comparison.
   */
  function NumberVerdict(value: string, min: Option<int>, max: Option<int>): (r: Option<FieldError>)
    ensures r.Some? ==> r.value == OutOfRange(min, max)
    ensures ParseInt(value).None? ==> r.None?
    ensures forall n :: ParseInt(value) == Some(n) ==>
              (r.Some? <==> (min.Some? && n < min.value) || (max.Some? && n > max.value))
  {
    var numValue := ParseInt(value);
    if value != [] && (Below(numValue, min) || Below(max, numValue)) then Some(OutOfRange(min, max)) else None
  }

  /**
   * The text and textarea case, which reports at most one error: required and
   * empty first, then shorter than a truthy minlength, then longer than a
   * truthy maxlength.
   */
  function TextVerdict(required: bool, value: string, minLength: Option<int>, maxLength: Option<int>): (r: Option<FieldError>)
    ensures r == Some(Required) <==> required && value == []
    ensures r.Some? && r.value.TooShort? ==>
              !(required && value == []) &&
              minLength == Some(r.value.minLength) && r.value.minLength != 0 && |value| < r.value.minLength
    ensures r.Some? && r.value.TooLong? ==>
              !(required && value == []) &&
              !(TruthyLimit(minLength) && |value| < minLength.value) &&
              maxLength == Some(r.value.maxLength) && r.value.maxLength != 0 && |value| > r.value.maxLength
    ensures r.None? <==>
              !(required && value == []) &&
              (TruthyLimit(minLength) ==> |value| >= minLength.value) &&
              (TruthyLimit(maxLength) ==> |value| <= maxLength.value)
    ensures r.Some? ==> r.value.Required? || r.value.TooShort? || r.value.TooLong?
  {
    if required && value == [] then Some(Required)
    else if TruthyLimit(minLength) && |value| < minLength.value then Some(TooShort(minLength.value))
    else if TruthyLimit(maxLength) && |value| > maxLength.value then Some(TooLong(maxLength.value))
    else None
  }

  /** The verdict of validateField: None when the field is valid, otherwise the one error it shows; other types (select, password, ...) always pass. */
  function FieldVerdict(f: Field): Option<FieldError> {
    var value := Trim(f.value);
    match f.kind
    case EmailType => EmailVerdict(value)
    case TelType => PhoneVerdict(value)
    case NumberType => NumberVerdict(value, ParseAttribute(f.min), ParseAttribute(f.max))
    case TextType => TextVerdict(f.required, value, ParseAttribute(f.minLength), ParseAttribute(f.maxLength))
    case TextareaType => TextVerdict(f.required, value, ParseAttribute(f.minLength), ParseAttribute(f.maxLength))
    case OtherType => None
  }

  /** Every required field passes its rules. */
  ghost predicate AllRequiredPass(fields: seq<Field>) {
    forall i :: 0 <= i < |fields| && fields[i].required ==> FieldVerdict(fields[i]).None?
  }

  /** The marks validateForm leaves: each required field shows its verdict, the others keep theirs. */
  ghost predicate FormMarks(fields: seq<Field>, before: seq<Option<FieldError>>, after: seq<Option<FieldError>>)
    requires |before| == |fields|
  {
    |after| == |fields| &&
    forall i :: 0 <= i < |fields| ==> after[i] == if fields[i].required then FieldVerdict(fields[i]) else before[i]
  }

  /** The marks after the first `n` fields have been visited by validateForm. */
  ghost function FormMarksPrefix(fields: seq<Field>, before: seq<Option<FieldError>>, n: nat): (m: seq<Option<FieldError>>)
    requires |before| == |fields| && n <= |fields|
    ensures |m| == |fields|
    ensures n == |fields| ==> FormMarks(fields, before, m)
  {
    seq(|fields|, k requires 0 <= k < |fields| =>
      if k < n && fields[k].required then FieldVerdict(fields[k]) else before[k])
  }

  lemma RequiredPassStep(fields: seq<Field>, i: nat)
    requires i < |fields|
    ensures AllRequiredPass(fields[..i + 1]) <==>
            AllRequiredPass(fields[..i]) && (fields[i].required ==> FieldVerdict(fields[i]).None?)
  {
    assert fields[..i + 1] == fields[..i] + [fields[i]];
  }

  class FormValidator {
    /** The form's input, textarea and select elements, in document order. */
    const fields: seq<Field>
    /** The error each field shows, by position. */
    var marks: seq<Option<FieldError>>
    /** The text of the general error banner, None while it is hidden. */
    var generalError: Option<string>
    /** Number of valid submissions handed to onValidSubmit. */
    var validSubmits: nat

    ghost predicate Valid()
      reads this
    {
      |marks| == |fields|
    }

    /** A fresh validator over a form: no field shows an error and the banner is hidden. */
    constructor (form: seq<Field>)
      ensures Valid() && fields == form
      ensures marks == seq(|form|, _ => None) && generalError == None && validSubmits == 0
    {
      fields := form;
      marks := seq(|form|, _ => None);
      generalError := None;
      validSubmits := 0;
    }

    /** validateField: clears the field's error, runs the rule of its type, and shows the error it finds. */
    method ValidateField(i: nat) returns (isValid: bool)
      requires Valid() && i < |fields|
      modifies this`marks
      ensures Valid()
      ensures isValid <==> FieldVerdict(fields[i]).None?
      ensures marks == old(marks)[i := FieldVerdict(fields[i])]
    {
      marks := marks[i := None];
      var error;
      isValid, error := CheckRules(fields[i]);
      if !isValid {
        marks := marks[i := error];
      }
    }

    /**
     * The switch on the field's type, setting the validity flag and the error
     * it finds, step by step as validateField does. This is the imperative
     * rendering of FieldVerdict, which defines the rule; the ensures ties the two.
     */
    static method CheckRules(field: Field) returns (isValid: bool, error: Option<FieldError>)
      ensures error == FieldVerdict(field)
      ensures isValid <==> error.None?
    {
      var value := Trim(field.value);
      isValid := true;
      error := None;
      match field.kind {
        case EmailType =>
          if value != [] && !IsValidEmail(value) {
            isValid := false;
            error := Some(BadEmail);
          }
        case TelType =>
          if value != [] && !IsValidChileanPhone(value) {
            isValid := false;
            error := Some(BadPhone);
          }
        case NumberType =>
          var min := ParseAttribute(field.min);
          var max := ParseAttribute(field.max);
          var numValue := ParseInt(value);
          if value != [] && (Below(numValue, min) || Below(max, numValue)) {
            isValid := false;
            error := Some(OutOfRange(min, max));
          }
        case TextType =>
          isValid, error := CheckText(field.required, value, field.minLength, field.maxLength);
        case TextareaType =>
          isValid, error := CheckText(field.required, value, field.minLength, field.maxLength);
        case OtherType =>
      }
    }

    /**
     * The shared text and textarea case of the switch, with its if/else-if
     * chain of flags: the imperative rendering of TextVerdict, which defines
     * the rule; the ensures ties the two.
     */
    static method CheckText(required: bool, value: string, minAttr: Option<string>, maxAttr: Option<string>)
      returns (isValid: bool, error: Option<FieldError>)
      ensures error == TextVerdict(required, value, ParseAttribute(minAttr), ParseAttribute(maxAttr))
      ensures isValid <==> error.None?
    {
      var minLength := ParseAttribute(minAttr);
      var maxLength := ParseAttribute(maxAttr);
      isValid := true;
      error := None;
      if required && value == [] {
        isValid := false;
        error := Some(Required);
      } else if TruthyLimit(minLength) && |value| < minLength.value {
        isValid := false;
        error := Some(TooShort(minLength.value));
      } else if TruthyLimit(maxLength) && |value| > maxLength.value {
        isValid := false;
        error := Some(TooLong(maxLength.value));
      }
    }

    /** validateForm: every required field is validated, none skipped after a failure, and the form is valid iff all pass. */
    method ValidateForm() returns (isFormValid: bool)
      requires Valid()
      modifies this`marks
      ensures Valid()
      ensures isFormValid <==> AllRequiredPass(fields)
      ensures FormMarks(fields, old(marks), marks)
    {
      isFormValid := true;
      var i := 0;
      while i < |fields|
        invariant 0 <= i <= |fields| && Valid()
        invariant isFormValid <==> AllRequiredPass(fields[..i])
        invariant marks == FormMarksPrefix(fields, old(marks), i)
      {
        ghost var before := marks;
        if fields[i].required {
          var ok := ValidateField(i);
          if !ok {
            isFormValid := false;
          }
        }
        RequiredPassStep(fields, i);
        i := i + 1;
      }
      assert fields[..|fields|] == fields;
    }

    /** handleSubmit: a valid form goes to onValidSubmit; an invalid one shows the general error banner. */
    method HandleSubmit() returns (submitted: bool)
      requires Valid()
      modifies this`marks, this`generalError, this`validSubmits
      ensures Valid()
      ensures submitted <==> AllRequiredPass(fields)
      ensures FormMarks(fields, old(marks), marks)
      ensures submitted ==> generalError == old(generalError) && validSubmits == old(validSubmits) + 1
      ensures !submitted ==> generalError == Some(GeneralErrorText) && validSubmits == old(validSubmits)
    {
      submitted := ValidateForm();
      if submitted {
        validSubmits := validSubmits + 1;
      } else {
        generalError := Some(GeneralErrorText);
      }
    }
  }

  /** A required email or phone field left empty still passes validateForm: emptiness is checked only for text fields. */
  lemma EmptyRequiredEmailPasses(f: Field)
    requires f.kind == EmailType || f.kind == TelType
    requires AllSpaces(f.value)
    ensures FieldVerdict(f).None?
  {
    TrimEmptyIffAllSpaces(f.value);
  }

  /** A number field whose value does not start with a number never reports a range error, whatever its bounds. */
  lemma UnparsableNumberPasses(f: Field)
    requires f.kind == NumberType && |Trim(f.value)| > 0
    requires !IsDecimalDigit(Trim(f.value)[0]) && Trim(f.value)[0] != '-' && Trim(f.value)[0] != '+'
    ensures FieldVerdict(f).None?
  {
    var v := Trim(f.value);
    assert TrimStart(v) == v;
  }

  /** Only the first failing text rule is reported: a required, empty field never shows a length error. */
  lemma RequiredComesFirst(f: Field)
    requires f.kind == TextType || f.kind == TextareaType
    requires f.required && AllSpaces(f.value)
    ensures FieldVerdict(f) == Some(Required)
  {
    TrimEmptyIffAllSpaces(f.value);
  }

  /** Fields that are not required never make validateForm fail. */
  lemma OptionalFieldsIgnored(fields: seq<Field>, extra: Field)
    requires !extra.required
    ensures AllRequiredPass(fields + [extra]) <==> AllRequiredPass(fields)
  {
    var all := fields + [extra];
    if AllRequiredPass(fields) {
      forall i | 0 <= i < |all| && all[i].required ensures FieldVerdict(all[i]).None? {
        assert all[i] == fields[i];
      }
    }
    if AllRequiredPass(all) {
      forall i | 0 <= i < |fields| && fields[i].required ensures FieldVerdict(fields[i]).None? {
        assert all[i] == fields[i];
      }
    }
  }
}
