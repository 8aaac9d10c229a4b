/** One stage of a job: its states, and the merge of two copies of it
    (`Partida::fusionar` in acuerdo.rs).

    `Partida` is a stage as it travels; `PartidasLocal` runs the merge in place and is proved
    against the function `Fusion`. */
module Partidas {
  import opened Base
  import opened Precio

  datatype Persona = Persona(id: string, nombre: string, visto: int, clavePub: string, direccion: string)

  datatype Rol = Mandante | Contratista

  datatype EstadoPartida = Pendiente | Encerrando | Encerrada | EnTrato | Pagada {
    function Rango(): (r: nat)
      ensures r <= 4
    {
      match this
      case Pendiente => 0
      case Encerrando => 1
      case Encerrada => 2
      case EnTrato => 3
      case Pagada => 4
    }
  }

  const EN_TRATO := 3

  datatype Nota = Nota(
    autorId: string, autorNombre: string, porcentaje: u32, texto: string, cuando: int, caja: string)

  datatype Recibo = Recibo(titulo: string, porcentaje: u32, monto: u64, aceptoNombre: string, cuando: int)

  datatype Partida = Partida(
    detalle: string,
    estado: EstadoPartida,
    propuesto: Option<u32>,
    pago: Option<u32>,
    turno: Option<Rol>,
    notas: seq<Nota>,
    encerradoPor: Option<Persona>,
    encerradoCuando: int,
    recibo: Option<Recibo>,
    monto: u64,
    encerrarSeq: u32,
    fondeoTxid: Option<string>,
    pagoTxid: Option<string>,
    precio: Option<PrecioFijado>)
  {
    function Capital(garantiaObra: u64): u64 {
      if monto > 0 then monto else garantiaObra
    }
  }

  /** A fresh stage. `detalle` is already cleaned by the caller. */
  function Nueva(detalle: string, monto: u64): Partida {
    Partida(detalle, Pendiente, None, None, None, [], None, 0, None, monto, 0, None, None, None)
  }

  // ----- notes

  /** A note without its words: what both sides must agree on. */
  function Nucleo(n: Nota): Nota {
    n.(texto := "", caja := "")
  }

  function Nucleos(ns: seq<Nota>): (r: seq<Nota>)
    ensures |r| == |ns|
    ensures forall k :: 0 <= k < |ns| ==> r[k] == Nucleo(ns[k])
  {
    seq(|ns|, k requires 0 <= k < |ns| => Nucleo(ns[k]))
  }

  /** The text an incoming note `a` takes back from the note `b` this device had. */
  function NotaRestaurada(a: Nota, b: Nota): Nota {
    if a.caja != "" then a.(texto := "")
    else if b.caja != "" then a.(caja := b.caja, texto := "")
    else if a.texto == "" then a.(texto := b.texto)
    else a
  }

  /** `a` after taking the sealed box of `b`, if it had none. */
  function NotaElevada(a: Nota, b: Nota): Nota {
    if a.caja != "" then a.(texto := "")
    else if b.caja != "" then a.(caja := b.caja, texto := "")
    else a
  }

  function Restauradas(dst: seq<Nota>, prev: seq<Nota>): (r: seq<Nota>)
  {
    seq(|dst|, k requires 0 <= k < |dst| => if k < |prev| then NotaRestaurada(dst[k], prev[k]) else dst[k])
  }

  function Elevadas(dst: seq<Nota>, src: seq<Nota>): (r: seq<Nota>)
  {
    seq(|dst|, k requires 0 <= k < |dst| => if k < |src| then NotaElevada(dst[k], src[k]) else dst[k])
  }

  lemma NucleosEstables(dst: seq<Nota>, otras: seq<Nota>)
    ensures |Restauradas(dst, otras)| == |Elevadas(dst, otras)| == |dst|
    ensures Nucleos(Restauradas(dst, otras)) == Nucleos(dst)
    ensures Nucleos(Elevadas(dst, otras)) == Nucleos(dst)
  {
  }

  method RestaurarNotas(dst: seq<Nota>, prev: seq<Nota>) returns (r: seq<Nota>)
    ensures r == Restauradas(dst, prev)
  {
    r := dst;
    var k := 0;
    while k < |dst| && k < |prev|
      invariant 0 <= k <= |dst| == |r| && k <= |prev|
      invariant forall j :: 0 <= j < k ==> r[j] == NotaRestaurada(dst[j], prev[j])
      invariant forall j :: k <= j < |dst| ==> r[j] == dst[j]
    {
      var a, b := r[k], prev[k];
      if a.caja == "" && b.caja != "" {
        a := a.(caja := b.caja);
        a := a.(texto := "");
      } else if a.texto == "" && a.caja == "" && b.texto != "" {
        a := a.(texto := b.texto);
      }
      if a.caja != "" {
        a := a.(texto := "");
      }
      r := r[k := a];
      k := k + 1;
    }
  }

  method ElevarCajas(dst: seq<Nota>, src: seq<Nota>) returns (r: seq<Nota>)
    ensures r == Elevadas(dst, src)
  {
    r := dst;
    var k := 0;
    while k < |dst| && k < |src|
      invariant 0 <= k <= |dst| == |r| && k <= |src|
      invariant forall j :: 0 <= j < k ==> r[j] == NotaElevada(dst[j], src[j])
      invariant forall j :: k <= j < |dst| ==> r[j] == dst[j]
    {
      var a, b := r[k], src[k];
      if a.caja == "" && b.caja != "" {
        a := a.(caja := b.caja);
        a := a.(texto := "");
      }
      if a.caja != "" {
        a := a.(texto := "");
      }
      r := r[k := a];
      k := k + 1;
    }
  }

  // ----- merge

  /** Does the proposer of the other copy win a crossed proposal? */
  predicate GanaOtra(mio: Option<Persona>, otro: Option<Persona>) {
    otro.Some? && (mio.None? || Menor(otro.value.id, mio.value.id))
  }

  function Llenar<T>(dst: Option<T>, src: Option<T>): Option<T> {
    if dst.None? then src else dst
  }

  /** First phase: the lock sequence number decides while no note has been written, and
      two crossed proposals with the same number are decided by the smaller id. */
  function FaseSeq(p: Partida, o: Partida): Partida {
    if o.encerrarSeq > p.encerrarSeq && p.estado.Rango() < EN_TRATO then
      p.(estado := o.estado,
         encerradoPor := o.encerradoPor,
         encerradoCuando := o.encerradoCuando,
         encerrarSeq := o.encerrarSeq,
         precio := if o.estado.Pendiente? then None else Llenar(o.precio, p.precio))
    else if o.encerrarSeq > p.encerrarSeq then
      p.(encerrarSeq := o.encerrarSeq)
    else if o.encerrarSeq == p.encerrarSeq && p.estado.Encerrando? && o.estado.Encerrando? then
      if GanaOtra(p.encerradoPor, o.encerradoPor) then
        p.(encerradoPor := o.encerradoPor, encerradoCuando := o.encerradoCuando, precio := o.precio)
      else if p.precio.None? && o.encerradoPor == p.encerradoPor then
        p.(precio := o.precio)
      else p
    else p
  }

  /** Second phase, when the other copy is further along. */
  function FaseAdelante(p: Partida, o: Partida): Partida {
    p.(estado := o.estado,
       propuesto := o.propuesto,
       pago := o.pago,
       turno := o.turno,
       notas := Elevadas(if |o.notas| >= |p.notas| then Restauradas(o.notas, p.notas) else p.notas, o.notas),
       encerradoPor := if o.encerradoPor.Some? then o.encerradoPor else p.encerradoPor,
       encerradoCuando := if o.encerradoPor.Some? then o.encerradoCuando else p.encerradoCuando,
       recibo := if o.recibo.Some? then o.recibo else p.recibo,
       precio := Llenar(p.precio, o.precio),
       fondeoTxid := Llenar(p.fondeoTxid, o.fondeoTxid),
       pagoTxid := Llenar(p.pagoTxid, o.pagoTxid))
  }

  /** Second phase, when both copies are in the same state. */
  function FaseMismoEstado(p: Partida, o: Partida): Partida {
    var masNotas := |o.notas| > |p.notas|;
    p.(notas := if masNotas then Restauradas(o.notas, p.notas) else p.notas,
       propuesto := if masNotas then o.propuesto else p.propuesto,
       turno := if masNotas then o.turno else p.turno,
       pago := Llenar(p.pago, o.pago),
       encerradoPor := Llenar(p.encerradoPor, o.encerradoPor),
       encerradoCuando := if p.encerradoPor.None? then o.encerradoCuando else p.encerradoCuando,
       recibo := Llenar(p.recibo, o.recibo),
       monto := if p.monto == 0 then o.monto else p.monto,
       precio := if p.estado.Pendiente? then p.precio else Llenar(p.precio, o.precio))
  }

  /** Last phase of a merge that did not move the stage forward. */
  function FaseFinal(p: Partida, o: Partida): Partida {
    p.(monto := if p.monto == 0 then o.monto else p.monto,
       turno := if p.estado.Pagada? then None else p.turno,
       detalle := if p.estado.Pendiente? && o.estado.Pendiente? && o.detalle != "" then o.detalle else p.detalle,
       fondeoTxid := Llenar(p.fondeoTxid, o.fondeoTxid),
       pagoTxid := Llenar(p.pagoTxid, o.pagoTxid),
       notas := Elevadas(p.notas, o.notas))
  }

  function Fusion(p: Partida, o: Partida): Partida {
    var q := FaseSeq(p.(detalle := if p.detalle == "" then o.detalle else p.detalle), o);
    if o.estado.Rango() > q.estado.Rango() then FaseAdelante(q, o)
    else FaseFinal(if o.estado == q.estado then FaseMismoEstado(q, o) else q, o)
  }
}
