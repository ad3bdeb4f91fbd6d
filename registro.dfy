/**
 * The registration page of registro-chile.js: the region and comuna selects
 * fed from a fixed table, and the checks run when the form is submitted.
 *
 * The form's input and select elements are a sequence of controls in
 * document order; the checks address the named ones (correo,
 * confirmarCorreo, password, confirmarPassword, telefono, and the region and
 * comuna selects) by their first control with that name. The `is-invalid`
 * class of each control is a boolean at the same position.
 */
module Registro {
  import opened Js
  import Utils

  /** An option of a select: its value and its text. */
  datatype SelectOption = SelectOption(value: string, text: string)

  /** `regionesYComunas`: each region with its comunas, in the order the object literal lists them. */
  const RegionTable: seq<(string, seq<string>)> := [
    ("Región de Arica y Parinacota", ["Arica", "Camarones", "Putre", "General Lagos"]),
    ("Región de Tarapacá", ["Iquique", "Alto Hospicio", "Pozo Almonte"]),
    ("Región de Antofagasta", ["Antofagasta", "Mejillones", "Taltal", "Calama", "Tocopilla"]),
    ("Región Metropolitana de Santiago", ["Santiago", "Cerrillos", "Cerro Navia", "Conchalí", "El Bosque",
      "Estación Central", "Huechuraba", "Independencia", "La Cisterna", "La Florida", "La Granja",
      "La Pintana", "La Reina", "Las Condes", "Lo Barnechea", "Lo Espejo", "Lo Prado", "Macul", "Maipú",
      "Ñuñoa", "Pedro Aguirre Cerda", "Peñalolén", "Providencia", "Pudahuel", "Quilicura",
      "Quinta Normal", "Recoleta", "Renca", "San Joaquín", "San Miguel", "San Ramón", "Vitacura"]),
    ("Región de Valparaíso", ["Valparaíso", "Viña del Mar", "Concón", "Quilpué", "Villa Alemana",
      "Quillota", "San Antonio", "Los Andes", "San Felipe"])
  ]

  /** The option the comuna select is reset to. */
  const Placeholder: SelectOption := SelectOption("", "Seleccione una comuna")

  const MinPasswordLength: nat := 8

  /** `regionesYComunas[region]`: the comunas of the first entry with that key, None when there is none. */
  function ComunasIn(table: seq<(string, seq<string>)>, region: string): (r: Option<seq<string>>)
    ensures r.None? <==> forall k :: 0 <= k < |table| ==> table[k].0 != region
    ensures r.Some? ==> exists k :: 0 <= k < |table| && table[k] == (region, r.value)
  {
    if table == [] then None
    else if table[0].0 == region then Some(table[0].1)
    else
      var r := ComunasIn(table[1..], region);
      assert r.Some? ==> exists k :: 0 <= k < |table| && table[k] == (region, r.value) by {
        if r.Some? {
          var k :| 0 <= k < |table[1..]| && table[1..][k] == (region, r.value);
          assert table[k + 1] == (region, r.value);
        }
      }
      assert forall k :: 1 <= k < |table| ==> table[k] == table[1..][k - 1];
      r
  }


  /** The options appended for a list of names: value and text are both the name. */
  function NamedOptions(names: seq<string>): (r: seq<SelectOption>)
    ensures |r| == |names|
    ensures forall k :: 0 <= k < |names| ==> r[k] == SelectOption(names[k], names[k])
  {
    seq(|names|, k requires 0 <= k < |names| => SelectOption(names[k], names[k]))
  }

  /** `Object.keys(table)`: the region names in table order. */
  function Keys(table: seq<(string, seq<string>)>): (r: seq<string>)
    ensures |r| == |table|
    ensures forall k :: 0 <= k < |r| ==> r[k] == table[k].0
  {
    seq(|table|, k requires 0 <= k < |table| => table[k].0)
  }

  /** The first control with the given name, as `form.name` resolves it. */
  function Find(cs: seq<Control>, name: string): (r: Option<nat>)
    ensures r.Some? ==> r.value < |cs| && cs[r.value].name == name
    ensures r.Some? ==> forall k :: 0 <= k < r.value ==> cs[k].name != name
    ensures r.None? ==> forall k :: 0 <= k < |cs| ==> cs[k].name != name
  {
    if cs == [] then None
    else if cs[0].name == name then Some(0)
    else match Find(cs[1..], name)
      case None => None
      case Some(k) => Some(k + 1)
  }

  const Names: seq<string> := ["correo", "confirmarCorreo", "password", "confirmarPassword", "telefono", "region", "comuna"]

  /** Every control the page script addresses by name is present. */
  predicate HasNamedControls(cs: seq<Control>) {
    forall n :: n in Names ==> Find(cs, n).Some?
  }

  function At(cs: seq<Control>, name: string): Control
    requires HasNamedControls(cs) && name in Names
  {
    cs[Find(cs, name).value]
  }

  /** A required control with an empty value (not trimmed). */
  predicate MissingValue(c: Control) {
    c.required && c.value == []
  }

  /** The email and its confirmation differ once trimmed. */
  predicate EmailMismatch(cs: seq<Control>)
    requires HasNamedControls(cs)
  {
    Trim(At(cs, "correo").value) != Trim(At(cs, "confirmarCorreo").value)
  }

  /** The password differs from its confirmation or is shorter than eight characters; nothing is trimmed. */
  predicate PasswordRejected(cs: seq<Control>)
    requires HasNamedControls(cs)
  {
    var pass := At(cs, "password").value;
    pass != At(cs, "confirmarPassword").value || |pass| < MinPasswordLength
  }

  /** A non-empty trimmed phone that does not match the Chilean pattern; whitespace inside is not removed. */
  predicate PhoneRejected(cs: seq<Control>)
    requires HasNamedControls(cs)
  {
    var tel := Trim(At(cs, "telefono").value);
    tel != [] && !Utils.MatchesPhonePattern(tel)
  }

  /** Every registration check passes. */
  predicate RegistrationAccepted(cs: seq<Control>)
    requires HasNamedControls(cs)
  {
    (forall k :: 0 <= k < |cs| ==> !MissingValue(cs[k])) &&
    !EmailMismatch(cs) && !PasswordRejected(cs) && !PhoneRejected(cs)
  }

  /** The marks a submission leaves: the required check on every control, then each named check overriding its control's mark. */
  function SubmitMarks(cs: seq<Control>): (m: seq<bool>)
    requires HasNamedControls(cs)
    ensures |m| == |cs|
  {
    seq(|cs|, k requires 0 <= k < |cs| => MissingValue(cs[k]))
      [Find(cs, "confirmarCorreo").value := EmailMismatch(cs)]
      [Find(cs, "confirmarPassword").value := PasswordRejected(cs)]
      [Find(cs, "telefono").value := PhoneRejected(cs)]
  }

  class RegistroPage {
    /** The region table the page script holds. */
    const table: seq<(string, seq<string>)>
    var controls: seq<Control>
    var invalid: seq<bool>
    var regionOptions: seq<SelectOption>
    var comunaOptions: seq<SelectOption>
    var comunaDisabled: bool
    /** How many times the success dialog was shown. */
    var welcomes: nat

    ghost predicate Valid()
      reads this
    {
      |invalid| == |controls| && HasNamedControls(controls)
    }

    constructor (form: seq<Control>, regionHtml: seq<SelectOption>, comunaHtml: seq<SelectOption>, comunaOff: bool)
      requires HasNamedControls(form)
      ensures Valid() && table == RegionTable && controls == form && invalid == seq(|form|, _ => false)
      ensures regionOptions == regionHtml && comunaOptions == comunaHtml && comunaDisabled == comunaOff && welcomes == 0
    {
      table := RegionTable;
      controls := form;
      invalid := seq(|form|, _ => false);
      regionOptions := regionHtml;
      comunaOptions := comunaHtml;
      comunaDisabled := comunaOff;
      welcomes := 0;
    }

    /** On DOMContentLoaded: one option per region, in table order, after the options the page already has. */
    method PopulateRegions()
      modifies this`regionOptions
      ensures regionOptions == old(regionOptions) + NamedOptions(Keys(table))
    {
      var names := Keys(table);
      var added: seq<SelectOption> := [];
      var i := 0;
      while i < |names|
        invariant 0 <= i <= |names|
        invariant added == NamedOptions(names[..i])
      {
        added := added + [SelectOption(names[i], names[i])];
        i := i + 1;
      }
      assert names[..i] == names;
      regionOptions := regionOptions + added;
    }

    /**
     * The region select's change handler: the comuna select is reset to its
     * placeholder (which becomes its value) and disabled; for a region of the
     * table its comunas are appended in order and it is enabled again.
     */
    method OnRegionChange()
      requires Valid()
      modifies this`comunaOptions, this`comunaDisabled, this`controls
      ensures Valid()
      ensures var c := Find(old(controls), "comuna").value;
              controls == old(controls)[c := old(controls)[c].(value := [])]
      ensures var comunas := ComunasIn(table, At(old(controls), "region").value);
              comunaOptions == [Placeholder] + (if comunas.Some? then NamedOptions(comunas.value) else []) &&
              (comunaDisabled <==> comunas.None?)
    {
      var region := At(controls, "region").value;
      var c := Find(controls, "comuna").value;
      comunaOptions := [Placeholder];
      controls := controls[c := controls[c].(value := [])];
      assert Find(controls, "comuna") == Some(c) && Find(controls, "region") == Find(old(controls), "region") by {
        FindAfterValueChange(old(controls), c, [], "comuna");
        FindAfterValueChange(old(controls), c, [], "region");
      }
      NamedControlsAfterValueChange(old(controls), c, []);
      comunaDisabled := true;
      var comunas := ComunasIn(table, region);
      match comunas {
        case None =>
        case Some(list) =>
          var appended: seq<SelectOption> := [];
          var i := 0;
          while i < |list|
            invariant 0 <= i <= |list|
            invariant appended == NamedOptions(list[..i])
          {
            appended := appended + [SelectOption(list[i], list[i])];
            i := i + 1;
          }
          assert list[..i] == list;
          comunaOptions := comunaOptions + appended;
          comunaDisabled := false;
      }
    }

    /**
     * The submit handler: every check runs and marks its control; only when
     * all passed are the controls reset, every mark cleared and the comuna
     * select disabled.
     */
    method Submit() returns (valid: bool)
      requires Valid()
      modifies this`controls, this`invalid, this`comunaDisabled, this`welcomes
      ensures Valid()
      ensures valid <==> RegistrationAccepted(old(controls))
      ensures valid ==>
                controls == ResetAll(old(controls)) &&
                invalid == seq(|controls|, _ => false) && comunaDisabled && welcomes == old(welcomes) + 1
      ensures !valid ==>
                controls == old(controls) && invalid == SubmitMarks(old(controls)) &&
                comunaDisabled == old(comunaDisabled) && welcomes == old(welcomes)
    {
      var marks;
      marks, valid := RequiredChecks(controls);
      marks, valid := NamedChecks(controls, marks, valid);
      assert marks == SubmitMarks(controls);
      assert valid <==> RegistrationAccepted(controls);
      if valid {
        welcomes := welcomes + 1;
        var reset := ResetAll(controls);
        NamedControlsAfterReset(controls);
        controls := reset;
        invalid := seq(|controls|, _ => false);
        comunaDisabled := true;
      } else {
        invalid := marks;
      }
    }
  }

  /** The forEach over the inputs and selects: a required control with an empty value is marked, the others cleared. */
  method RequiredChecks(cs: seq<Control>) returns (marks: seq<bool>, valid: bool)
    ensures marks == seq(|cs|, k requires 0 <= k < |cs| => MissingValue(cs[k]))
    ensures valid <==> forall k :: 0 <= k < |cs| ==> !MissingValue(cs[k])
  {
    valid := true;
    marks := [];
    var i := 0;
    while i < |cs|
      invariant 0 <= i <= |cs| && |marks| == i
      invariant forall k :: 0 <= k < i ==> marks[k] == MissingValue(cs[k])
      invariant valid <==> forall k :: 0 <= k < i ==> !MissingValue(cs[k])
    {
      if cs[i].required && cs[i].value == [] {
        marks := marks + [true];
        valid := false;
      } else {
        marks := marks + [false];
      }
      i := i + 1;
    }
  }

  /** The email confirmation, password and phone checks, in that order, each marking its own control. */
  method NamedChecks(cs: seq<Control>, marks0: seq<bool>, valid0: bool) returns (marks: seq<bool>, valid: bool)
    requires HasNamedControls(cs) && |marks0| == |cs|
    ensures marks == marks0[Find(cs, "confirmarCorreo").value := EmailMismatch(cs)]
                           [Find(cs, "confirmarPassword").value := PasswordRejected(cs)]
                           [Find(cs, "telefono").value := PhoneRejected(cs)]
    ensures valid <==> valid0 && !EmailMismatch(cs) && !PasswordRejected(cs) && !PhoneRejected(cs)
  {
    valid := valid0;
    marks := marks0;
    var correo := Trim(At(cs, "correo").value);
    var confirmarCorreo := Trim(At(cs, "confirmarCorreo").value);
    if correo != confirmarCorreo {
      marks := marks[Find(cs, "confirmarCorreo").value := true];
      valid := false;
    } else {
      marks := marks[Find(cs, "confirmarCorreo").value := false];
    }
    var pass := At(cs, "password").value;
    var pass2 := At(cs, "confirmarPassword").value;
    if pass != pass2 || |pass| < MinPasswordLength {
      marks := marks[Find(cs, "confirmarPassword").value := true];
      valid := false;
    } else {
      marks := marks[Find(cs, "confirmarPassword").value := false];
    }
    var tel := Trim(At(cs, "telefono").value);
    if tel != [] && !Utils.MatchesPhonePattern(tel) {
      marks := marks[Find(cs, "telefono").value := true];
      valid := false;
    } else {
      marks := marks[Find(cs, "telefono").value := false];
    }
  }

  /** form.reset(): every control back to its default value. */
  function ResetAll(cs: seq<Control>): (r: seq<Control>)
    ensures |r| == |cs|
    ensures forall k :: 0 <= k < |cs| ==> r[k] == Reset(cs[k])
  {
    seq(|cs|, k requires 0 <= k < |cs| => Reset(cs[k]))
  }

  /** Changing a control's value does not change which control a name finds. */
  lemma {:induction false} FindAfterValueChange(cs: seq<Control>, c: nat, v: string, name: string)
    requires c < |cs|
    ensures Find(cs[c := cs[c].(value := v)], name) == Find(cs, name)
  {
    if cs != [] && c > 0 {
      FindAfterValueChange(cs[1..], c - 1, v, name);
      assert cs[c := cs[c].(value := v)][1..] == cs[1..][c - 1 := cs[c].(value := v)];
    }
  }

  lemma NamedControlsAfterValueChange(cs: seq<Control>, c: nat, v: string)
    requires c < |cs| && HasNamedControls(cs)
    ensures HasNamedControls(cs[c := cs[c].(value := v)])
  {
    forall n | n in Names ensures Find(cs[c := cs[c].(value := v)], n).Some? {
      FindAfterValueChange(cs, c, v, n);
    }
  }

  /** Resetting keeps every name where it was. */
  lemma {:induction false} FindAfterReset(cs: seq<Control>, name: string)
    ensures Find(ResetAll(cs), name) == Find(cs, name)
  {
    if cs != [] {
      FindAfterReset(cs[1..], name);
      assert ResetAll(cs)[1..] == ResetAll(cs[1..]);
    }
  }

  lemma NamedControlsAfterReset(cs: seq<Control>)
    requires HasNamedControls(cs)
    ensures HasNamedControls(ResetAll(cs))
  {
    forall n | n in Names ensures Find(ResetAll(cs), n).Some? {
      FindAfterReset(cs, n);
    }
  }

  /** Every region of the table finds its own comunas. */
  lemma TableLookup(k: nat)
    requires k < |RegionTable|
    ensures ComunasIn(RegionTable, RegionTable[k].0) == Some(RegionTable[k].1)
  {
    forall a, b | 0 <= a < b < |RegionTable| ensures RegionTable[a].0 != RegionTable[b].0 {
    }
    LookupUniqueKeys(RegionTable, k);
  }

  lemma {:induction false} LookupUniqueKeys(table: seq<(string, seq<string>)>, k: nat)
    requires k < |table|
    requires forall a, b :: 0 <= a < b < |table| ==> table[a].0 != table[b].0
    ensures ComunasIn(table, table[k].0) == Some(table[k].1)
  {
    if k > 0 {
      assert table[0].0 != table[k].0;
      LookupUniqueKeys(table[1..], k - 1);
    }
  }

  /**
   * The registration phone check does not strip whitespace, unlike
   * Utils.isValidChileanPhone: a number with a space after the country code
   * passes the one and fails the other.
   */
  lemma SpacedPhoneRejectedAtRegistration()
    ensures !Utils.MatchesPhonePattern(Trim("+56 912345678"))
    ensures Utils.IsValidChileanPhone("+56 912345678")
  {
    UnpaddedPhone();
    assert "+56" + " " + "912345678" == "+56 912345678";
    assert Utils.NationalNumber("912345678");
    Utils.SpacedInternationalAccepted(" ", "912345678");
  }

  lemma UnpaddedPhone()
    ensures Trim("+56 912345678") == "+56 912345678"
  {
    var s := "+56 912345678";
    assert TrimStart(s) == s by { assert s[0] == '+'; }
    assert TrimEnd(s) == s by { assert s[|s| - 1] == '8'; }
  }

  /**
   * A confirmation check can clear the mark the required check set: an empty
   * required confirmation next to an empty email ends unmarked, while the
   * submission is still refused.
   */
  lemma ConfirmationMarkOverridesRequired(cs: seq<Control>)
    requires HasNamedControls(cs)
    requires At(cs, "correo").value == [] && At(cs, "confirmarCorreo").value == []
    requires At(cs, "confirmarCorreo").required
    ensures !SubmitMarks(cs)[Find(cs, "confirmarCorreo").value]
    ensures !RegistrationAccepted(cs)
  {
    var c := Find(cs, "confirmarCorreo").value;
    assert MissingValue(cs[c]);
    assert cs[Find(cs, "confirmarPassword").value].name != cs[c].name;
    assert cs[Find(cs, "telefono").value].name != cs[c].name;
    assert !EmailMismatch(cs);
  }
}
