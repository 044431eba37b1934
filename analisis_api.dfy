/** The catalog of analyses (convex/analisis.ts): list, get, create,
    full overwrite and delete. */
module AnalisisApi {
  import opened Common
  import opened Tables
  import opened Schema

  /** `obtenerAnalisis`: every analysis in the catalog, each once, in
      creation order. */
  function ObtenerAnalisis(db: Database): (r: seq<Doc<AnalysisId, Analisis>>)
    reads db
    requires db.Valid()
    ensures |r| == |db.analisis.rows|
    ensures forall d :: d in r <==> d.id in db.analisis.rows && d.fields == db.analisis.rows[d.id]
  {
    forall d ensures d in db.analisis.Docs() <==> d.id in db.analisis.rows && d.fields == db.analisis.rows[d.id] {
      DocListed(db.analisis, d);
    }
    db.analisis.Docs()
  }

  /** `obtenerAnalisisPorId`: the stored analysis, or nothing when the
      id has no document. */
  function ObtenerAnalisisPorId(db: Database, id: AnalysisId): (r: Option<Analisis>)
    reads db
    ensures r.None? <==> id !in db.analisis.rows
    ensures r.Some? ==> r.value == db.analisis.rows[id]
  {
    db.analisis.Get(id)
  }

  /** The document `crearAnalisis` inserts: the five given fields, and
      one clock reading for both timestamps. */
  function NewAnalisis(nombre: string, descripcion: string, diasDeEspera: real, costo: real,
                       datos: seq<Parametro>, now: int): (a: Analisis)
    ensures a.createdAt == a.updatedAt == now
  {
    Analisis(nombre, descripcion, diasDeEspera, costo, datos, now, now)
  }

  /** `crearAnalisis`: inserts the analysis under a fresh id and
      returns that id. The server accepts an empty parameter list. */
  method CrearAnalisis(db: Database, nombre: string, descripcion: string, diasDeEspera: real,
                       costo: real, datos: seq<Parametro>, now: int)
    returns (id: AnalysisId)
    requires db.Valid()
    modifies db`analisis, db`nextId
    ensures db.Valid()
    ensures id !in old(db.analisis.rows)
    ensures db.analisis == old(db.analisis).Insert(id, NewAnalisis(nombre, descripcion, diasDeEspera, costo, datos, now))
  {
    var n := db.TakeId();
    id := AnalysisId(n);
    db.analisis := db.analisis.Insert(id, NewAnalisis(nombre, descripcion, diasDeEspera, costo, datos, now));
  }

  /** The document after `actualizarAnalisis`: the five fields
      overwritten, `updatedAt` set, `createdAt` kept. */
  function Overwritten(a: Analisis, nombre: string, descripcion: string, diasDeEspera: real,
                       costo: real, datos: seq<Parametro>, now: int): (r: Analisis)
    ensures r.createdAt == a.createdAt && r.updatedAt == now
    ensures r == NewAnalisis(nombre, descripcion, diasDeEspera, costo, datos, now).(createdAt := a.createdAt)
  {
    a.(nombre := nombre, descripcion := descripcion, diasDeEspera := diasDeEspera,
       costo := costo, datos := datos, updatedAt := now)
  }

  /** `actualizarAnalisis`: full overwrite of an existing analysis;
      fails, changing nothing, when the id has no document. */
  method ActualizarAnalisis(db: Database, id: AnalysisId, nombre: string, descripcion: string,
                            diasDeEspera: real, costo: real, datos: seq<Parametro>, now: int)
    returns (r: Outcome<DbError>)
    requires db.Valid()
    modifies db`analisis
    ensures db.Valid()
    ensures r.Fail? <==> id !in old(db.analisis.rows)
    ensures r.Fail? ==> db.analisis == old(db.analisis)
    ensures r.Pass? ==> db.analisis == old(db.analisis).Update(id,
      Overwritten(old(db.analisis.rows[id]), nombre, descripcion, diasDeEspera, costo, datos, now))
  {
    var current := db.analisis.Get(id);
    if current.None? {
      return Fail(NotFound);
    }
    db.analisis := db.analisis.Update(id, Overwritten(current.value, nombre, descripcion, diasDeEspera, costo, datos, now));
    r := Pass;
  }

  /** `eliminarAnalisis`: removes that analysis only. Orders and
      samples that hold its id keep it (the frame leaves them alone). */
  method EliminarAnalisis(db: Database, id: AnalysisId) returns (r: Outcome<DbError>)
    requires db.Valid()
    modifies db`analisis
    ensures db.Valid()
    ensures r.Fail? <==> id !in old(db.analisis.rows)
    ensures db.analisis == old(db.analisis).Delete(id)
  {
    if id !in db.analisis.rows {
      return Fail(NotFound);
    }
    db.analisis := db.analisis.Delete(id);
    r := Pass;
  }
}
