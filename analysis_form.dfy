/** The form that creates an analysis (app/analysis/create/page.tsx):
    a growable list of parameter fields and the checks made before the
    analysis is sent. */
module AnalysisForm {
  import opened Common
  import opened Text

  /** The text inputs of the form other than the parameter list. */
  datatype FormField = Nombre | Descripcion | DiasDeEspera | Costo

  /** Why a submission is refused. */
  datatype SubmitError = MissingNumbers | NoParameters

  /** What the form sends: the four inputs as typed (the two numbers
      are parsed on the way out) and the kept parameter names. */
  datatype AnalysisPayload = AnalysisPayload(
    nombre: string,
    descripcion: string,
    diasDeEspera: string,
    costo: string,
    datos: seq<string>)

  /** A parameter field that holds more than whitespace. */
  predicate NotBlank(f: string)
  {
    Trim(f) != ""
  }

  /** The parameters sent: the fields that are not blank, in their
      order on the form. */
  function KeptFields(fields: seq<string>): (r: seq<string>)
    ensures |r| <= |fields|
    ensures forall f :: f in r <==> f in fields && exists i :: 0 <= i < |f| && !IsWhitespace(f[i])
  {
    forall f ensures NotBlank(f) <==> exists i :: 0 <= i < |f| && !IsWhitespace(f[i]) {
      TrimEmptyIffBlank(f);
    }
    Filter(fields, NotBlank)
  }

  /** Typing into one more field appends it to what is sent exactly
      when it is not blank: the kept fields keep their order. */
  lemma KeptFieldsAppend(fields: seq<string>, f: string)
    ensures KeptFields(fields + [f]) == KeptFields(fields) + (if NotBlank(f) then [f] else [])
  {
    FilterAppend(fields, [f], NotBlank);
  }

  /** The form's state. */
  class CreateAnalysisForm {
    var fields: seq<string>
    var nombre: string
    var descripcion: string
    var diasDeEspera: string
    var costo: string

    /** There is always at least one parameter field. */
    ghost predicate Valid()
      reads this
    {
      |fields| >= 1
    }

    /** The form as first shown: one empty parameter field, every input
        empty. */
    constructor ()
      ensures Valid()
      ensures fields == [""] && nombre == "" && descripcion == "" && diasDeEspera == "" && costo == ""
    {
      fields := [""];
      nombre, descripcion, diasDeEspera, costo := "", "", "", "";
    }

    /** `addField`: one more empty field at the end. */
    method AddField()
      requires Valid()
      modifies this`fields
      ensures Valid()
      ensures fields == old(fields) + [""]
    {
      fields := fields + [""];
    }

    /** `removeLastField`: drops the last field unless it is the only
        one. */
    method RemoveLastField()
      requires Valid()
      modifies this`fields
      ensures Valid()
      ensures |old(fields)| > 1 ==> fields == old(fields)[..|old(fields)| - 1]
      ensures |old(fields)| == 1 ==> fields == old(fields)
    {
      if |fields| > 1 {
        fields := fields[..|fields| - 1];
      }
    }

    /** `handleChangeArray`: field `index` takes the typed value; the
        others keep theirs. */
    method HandleChangeArray(index: nat, value: string)
      requires Valid() && index < |fields|
      modifies this`fields
      ensures Valid()
      ensures fields == old(fields)[index := value]
    {
      fields := fields[index := value];
    }

    /** `handleChange`: one of the four text inputs takes the typed
        value. */
    method HandleChange(name: FormField, value: string)
      modifies this`nombre, this`descripcion, this`diasDeEspera, this`costo
      ensures name == Nombre ==> nombre == value
      ensures name == Descripcion ==> descripcion == value
      ensures name == DiasDeEspera ==> diasDeEspera == value
      ensures name == Costo ==> costo == value
      ensures name != Nombre ==> nombre == old(nombre)
      ensures name != Descripcion ==> descripcion == old(descripcion)
      ensures name != DiasDeEspera ==> diasDeEspera == old(diasDeEspera)
      ensures name != Costo ==> costo == old(costo)
    {
      match name
      case Nombre => nombre := value;
      case Descripcion => descripcion := value;
      case DiasDeEspera => diasDeEspera := value;
      case Costo => costo := value;
    }

    /** `handleSubmit`'s checks and payload: an empty waiting time or
        cost is refused first, then a form whose parameter fields are
        all blank; otherwise the inputs go out with the kept fields. */
    function Submission(): (r: Result<AnalysisPayload, SubmitError>)
      reads this
      ensures r == Err(MissingNumbers) <==> diasDeEspera == "" || costo == ""
      ensures r == Err(NoParameters) <==> diasDeEspera != "" && costo != "" && forall f :: f in fields ==> !NotBlank(f)
      ensures r.Ok? ==> r.value.datos == KeptFields(fields) && r.value.datos != []
      ensures r.Ok? ==> (r.value.nombre == nombre && r.value.descripcion == descripcion &&
                         r.value.diasDeEspera == diasDeEspera && r.value.costo == costo)
    {
      var datos := KeptFields(fields);
      if diasDeEspera == "" || costo == "" then Err(MissingNumbers)
      else if datos == [] then
        assert forall f :: f in fields ==> !NotBlank(f) by {
          forall f | f in fields ensures !NotBlank(f) {
            assert f !in datos;
          }
        }
        Err(NoParameters)
      else
        assert datos[0] in fields && NotBlank(datos[0]);
        Ok(AnalysisPayload(nombre, descripcion, diasDeEspera, costo, datos))
    }
  }
}
