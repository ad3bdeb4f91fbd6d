/**
 * The add-user form of admin.js: five trimmed fields; when all are
 * non-empty one row is appended to the users table and the form is reset,
 * otherwise nothing happens.
 */
module Admin {
  import opened Js

  /** The table row for five field values, in the order usuarioSistema, nombre, apellido, rut, correo; None when a trimmed value is empty. */
  function NewRow(values: seq<string>): (r: Option<seq<string>>)
    requires |values| == 5
    ensures r.Some? <==> forall k :: 0 <= k < 5 ==> Trim(values[k]) != []
    ensures r.Some? ==> |r.value| == 5 && forall k :: 0 <= k < 5 ==> r.value[k] == Trim(values[k])
  {
    var cells := [Trim(values[0]), Trim(values[1]), Trim(values[2]), Trim(values[3]), Trim(values[4])];
    if cells[0] == [] || cells[1] == [] || cells[2] == [] || cells[3] == [] || cells[4] == [] then None
    else Some(cells)
  }

  class UserAdmin {
    var usuarioSistema: Control
    var nombre: Control
    var apellido: Control
    var rut: Control
    var correo: Control
    /** The text of each row of the table body, cell by cell. */
    var rows: seq<seq<string>>

    constructor (u: Control, n: Control, a: Control, r: Control, c: Control, existing: seq<seq<string>>)
      ensures usuarioSistema == u && nombre == n && apellido == a && rut == r && correo == c && rows == existing
    {
      usuarioSistema, nombre, apellido, rut, correo := u, n, a, r, c;
      rows := existing;
    }

    function Values(): seq<string>
      reads this
    {
      [usuarioSistema.value, nombre.value, apellido.value, rut.value, correo.value]
    }

    /** The submit handler: an early return when a trimmed field is empty, otherwise one row appended and the form reset. */
    method Submit() returns (appended: bool)
      modifies this
      ensures appended <==> NewRow(old(Values())).Some?
      ensures !appended ==> unchanged(this)
      ensures appended ==>
                rows == old(rows) + [NewRow(old(Values())).value] &&
                usuarioSistema == Reset(old(usuarioSistema)) && nombre == Reset(old(nombre)) &&
                apellido == Reset(old(apellido)) && rut == Reset(old(rut)) && correo == Reset(old(correo))
    {
      var u := Trim(usuarioSistema.value);
      var n := Trim(nombre.value);
      var a := Trim(apellido.value);
      var r := Trim(rut.value);
      var c := Trim(correo.value);
      assert NewRow(Values()) == if u == [] || n == [] || a == [] || r == [] || c == [] then None else Some([u, n, a, r, c]);
      if u == [] || n == [] || a == [] || r == [] || c == [] {
        return false;
      }
      rows := rows + [[u, n, a, r, c]];
      usuarioSistema := Reset(usuarioSistema);
      nombre := Reset(nombre);
      apellido := Reset(apellido);
      rut := Reset(rut);
      correo := Reset(correo);
      appended := true;
    }
  }

  /** An appended row leaves the earlier rows as they were, and its cells carry no surrounding whitespace. */
  lemma AppendKeepsRows(rows: seq<seq<string>>, values: seq<string>)
    requires |values| == 5 && NewRow(values).Some?
    ensures var after := rows + [NewRow(values).value];
            |after| == |rows| + 1 && after[..|rows|] == rows &&
            forall k :: 0 <= k < 5 ==> after[|rows|][k] != [] && !IsSpace(after[|rows|][k][0]) &&
                                       !IsSpace(after[|rows|][k][|after[|rows|][k]| - 1])
  {
    var after := rows + [NewRow(values).value];
    assert after[..|rows|] == rows;
  }

  /** A field holding only whitespace blocks the append. */
  lemma BlankFieldBlocks(values: seq<string>, k: nat)
    requires |values| == 5 && k < 5 && AllSpaces(values[k])
    ensures NewRow(values).None?
  {
    TrimEmptyIffAllSpaces(values[k]);
  }
}
