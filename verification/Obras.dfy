/** A job between two people: offers, acceptance, and the merge of two copies of a job
    (`Obra::desde_oferta`, `Obra::fusionar` and `fusionar_partidas` in acuerdo.rs). */
module Obras {
  import opened Base
  import opened Texto
  import opened Precio
  import opened Cuotas
  import opened Partidas
  import opened PartidasLocal

  datatype EstadoObra = Publicada | Contra | Rechazada | Acordada | EnMarcha | Abandonada | Cerrada {
    function Rango(): (r: nat)
      ensures r <= 6
    {
      match this
      case Publicada => 0
      case Contra => 1
      case Rechazada => 2
      case Acordada => 3
      case EnMarcha => 4
      case Abandonada => 5
      case Cerrada => 6
    }
  }

  datatype Oferta = Oferta(
    id: string, nombre: string, trabajo: u64, garantiaSugerida: u64, nPartidasSugeridas: u32, mandante: Persona,
    detalles: seq<string>, actualizado: int, retiroHash: string, moneda: Moneda)

  datatype Aceptacion = Aceptacion(
    ofertaId: string, contratista: Persona, garantia: u64, nPartidas: u32, detalles: seq<string>)

  datatype Extra = Extra(detalle: string, monto: u64, por: Persona, detalleCaja: string)

  datatype Obra = Obra(
    id: string,
    nombre: string,
    trabajo: u64,
    garantia: u64,
    garantiaPublicada: u64,
    nPartidas: u32,
    mandante: Persona,
    contratista: Persona,
    estado: EstadoObra,
    partidas: seq<Partida>,
    contra: Option<Aceptacion>,
    extra: Option<Extra>,
    extraSeq: u32,
    actualizado: int,
    cierre: Option<Persona>,
    cierreSeq: u32,
    moneda: Moneda)
  {
    function RolDe(quien: string): Option<Rol> {
      if mandante.id == quien then Some(Mandante)
      else if contratista.id == quien then Some(Contratista)
      else None
    }

    /** `estado` closes the job: nothing more is done on it. */
    predicate Cortada() {
      estado == Abandonada || estado == Cerrada || estado == Rechazada
    }

    predicate HayRiesgo() {
      exists p <- partidas :: !p.estado.Pendiente?
    }

    predicate TodasPagadas() {
      forall p <- partidas :: p.estado.Pagada?
    }

    /** First stage that is not paid yet. */
    function Activa(): Option<nat> {
      PrimeraImpaga(partidas, 0)
    }
  }

  function PrimeraImpaga(ps: seq<Partida>, desde: nat): (r: Option<nat>)
    requires desde <= |ps|
    ensures r.None? ==> forall k :: desde <= k < |ps| ==> ps[k].estado.Pagada?
    ensures r.Some? ==> desde <= r.value < |ps| && !ps[r.value].estado.Pagada?
    ensures r.Some? ==> forall k :: desde <= k < r.value ==> ps[k].estado.Pagada?
    decreases |ps| - desde
  {
    if desde == |ps| then None
    else if !ps[desde].estado.Pagada? then Some(desde)
    else PrimeraImpaga(ps, desde + 1)
  }

  /** Fresh stages with the given texts, cleaned again by `Partida::pendiente`. */
  function NuevasPartidas(detalles: seq<string>): (r: seq<Partida>)
    ensures |r| == |detalles|
    ensures forall k :: 0 <= k < |r| ==> r[k] == Nueva(LimpiaDetalle(detalles[k]), 0)
  {
    seq(|detalles|, k requires 0 <= k < |detalles| => Nueva(LimpiaDetalle(detalles[k]), 0))
  }

  function Aceptar(oferta: Oferta, contratista: Persona, garantia: u64, detalles: seq<string>)
    : Result<Aceptacion, Error>
  {
    match NPartidas(oferta.trabajo, garantia)
    case Ok(n) => Ok(Aceptacion(oferta.id, contratista, garantia, n, AjustaDetalles(n, detalles)))
    case Err(e) => Err(e)
  }

  function DesdeOferta(oferta: Oferta, acc: Aceptacion, ahora: int): Result<Obra, Error> {
    if acc.ofertaId != oferta.id then Err(NoEsta)
    else match NPartidas(oferta.trabajo, acc.garantia)
      case Err(e) => Err(e)
      case Ok(n) =>
        var esContra := acc.garantia != oferta.garantiaSugerida;
        Ok(Obra(
          oferta.id, oferta.nombre, oferta.trabajo, acc.garantia, oferta.garantiaSugerida, n,
          oferta.mandante, acc.contratista,
          if esContra then Contra else Acordada,
          NuevasPartidas(acc.detalles),
          if esContra then Some(acc) else None,
          None, 0, ahora, None, 0, oferta.moneda))
  }

  /** XMR per side of stage `i`: the number the box and the payout use. */
  function PiconeroPartida(o: Obra, i: nat): Option<u64> {
    if i >= |o.partidas| then None
    else match o.moneda
      case Unidades => UnidadesAPiconero(o.partidas[i].Capital(o.garantia))
      case Usd =>
        var pr := o.partidas[i].precio;
        if pr.Some? && pr.value.Coherente() then Some(pr.value.piconero) else None
  }

  // ----- merge

  function LlenarClave(dst: Persona, src: Persona): Persona {
    if dst.id == src.id && dst.clavePub == "" then dst.(clavePub := src.clavePub) else dst
  }

  /** Stage `k` of a list as `Vec::resize` sees it: past the end it is a fresh stage. */
  function Celda(ps: seq<Partida>, k: nat): Partida {
    if k < |ps| then ps[k] else Nueva("", 0)
  }

  function FusionPartidas(dst: seq<Partida>, src: seq<Partida>, n: nat): (r: seq<Partida>)
    ensures |r| == n
    ensures forall k :: 0 <= k < n ==> r[k] == Fusion(Celda(dst, k), Celda(src, k))
  {
    seq(n, k requires 0 <= k => Fusion(Celda(dst, k), Celda(src, k)))
  }

  /** State, terms and stages: the copy that is further along decides the terms. */
  function FusionCuerpo(s: Obra, o: Obra): Obra {
    if o.estado.Rango() > s.estado.Rango() then
      s.(estado := o.estado,
         garantia := o.garantia,
         trabajo := o.trabajo,
         nPartidas := o.nPartidas,
         garantiaPublicada := if o.garantiaPublicada > 0 then o.garantiaPublicada else s.garantiaPublicada,
         contra := o.contra,
         partidas := FusionPartidas(s.partidas, o.partidas, o.nPartidas))
    else if o.estado.Rango() == s.estado.Rango() then
      s.(contra := Llenar(s.contra, o.contra),
         partidas :=
           if o.nPartidas == s.nPartidas then FusionPartidas(s.partidas, o.partidas, s.nPartidas) else s.partidas)
    else if o.nPartidas == s.nPartidas then
      s.(partidas := FusionPartidas(s.partidas, o.partidas, s.nPartidas))
    else s
  }

  predicate CreceCon(s: Obra, o: Obra) {
    o.nPartidas > s.nPartidas && o.estado.Rango() >= s.estado.Rango() && s.estado != Rechazada && s.estado != Abandonada
  }

  /** Extra stages: an accepted one lengthens the list, a newer proposal or refusal wins. */
  function FusionExtra(s: Obra, o: Obra): Obra {
    if CreceCon(s, o) then
      s.(trabajo := o.trabajo,
         nPartidas := o.nPartidas,
         partidas := FusionPartidas(s.partidas, o.partidas, o.nPartidas),
         extra := None,
         extraSeq := Max(s.extraSeq, o.extraSeq))
    else if o.extraSeq > s.extraSeq then
      s.(extra := o.extra, extraSeq := o.extraSeq)
    else if o.extraSeq == s.extraSeq && s.extra.Some? && o.extra.Some?
            && s.extra.value.detalleCaja == "" && o.extra.value.detalleCaja != "" then
      s.(extra := Some(s.extra.value.(detalleCaja := o.extra.value.detalleCaja, detalle := "")))
    else s
  }

  function FusionCierre(s: Obra, o: Obra): Obra {
    var t := if s.Cortada() then s.(extra := None, cierre := None) else s;
    if t.estado == Abandonada then t.(cierre := None, cierreSeq := Max(t.cierreSeq, o.cierreSeq))
    else if o.cierreSeq > t.cierreSeq then t.(cierre := o.cierre, cierreSeq := o.cierreSeq)
    else t
  }

  function FusionEstado(s: Obra, o: Obra): Obra {
    var t :=
      if s.estado != Rechazada && s.estado != Abandonada && s.HayRiesgo() && s.estado.Rango() < EnMarcha.Rango()
      then s.(estado := EnMarcha) else s;
    var u := if t.TodasPagadas() && |t.partidas| > 0 then t.(estado := Cerrada) else t;
    u.(actualizado := Max(u.actualizado, o.actualizado))
  }

  function FusionClaves(s: Obra, o: Obra): Obra {
    s.(mandante := LlenarClave(s.mandante, o.mandante),
       contratista := LlenarClave(s.contratista, o.contratista),
       moneda := if o.moneda.Usd? then Usd else s.moneda)
  }

  function FusionObra(s: Obra, o: Obra): Obra {
    FusionEstado(FusionCierre(FusionExtra(FusionCuerpo(FusionClaves(s, o), o), o), o), o)
  }

  function Redimensionada(ps: seq<Partida>, n: nat): (r: seq<Partida>)
    ensures |r| == n && forall k :: 0 <= k < n ==> r[k] == Celda(ps, k)
  {
    seq(n, k requires 0 <= k => Celda(ps, k))
  }

  method FusionarPartidas(dst: seq<Partida>, src: seq<Partida>, n: nat) returns (r: seq<Partida>)
    ensures r == FusionPartidas(dst, src, n)
  {
    r := Redimensionada(dst, n);
    var otras := Redimensionada(src, n);
    var k := 0;
    while k < n
      invariant 0 <= k <= n == |r| == |otras|
      invariant forall j :: 0 <= j < n ==> otras[j] == Celda(src, j)
      invariant forall j :: 0 <= j < k ==> r[j] == Fusion(Celda(dst, j), Celda(src, j))
      invariant forall j :: k <= j < n ==> r[j] == Celda(dst, j)
    {
      var a := new PartidaLocal.De(r[k]);
      a.Fusionar(otras[k]);
      r := r[k := a.p];
      k := k + 1;
    }
  }
}
