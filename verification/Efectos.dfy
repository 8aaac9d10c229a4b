/** What each action on a job means for the two people: who can do it, what it leaves alone,
    who can answer, what undoes it, and which invariants of the job it keeps. */
module Efectos {
  import opened Base
  import opened Texto
  import opened Precio
  import opened Cuotas
  import opened Partidas
  import opened Obras
  import opened Acuerdo
  import opened FusionObras
  import opened Acciones
  import opened Corrida
  import opened CorridaCierre
  import opened CorridaBotones
  import opened Dinero

  // ----- what stays

  /** The job before and after, apart from stage `i` and the state of the job. */
  predicate SoloPartida(o: Obra, r: Obra, i: nat) {
    && |r.partidas| == |o.partidas| && i < |o.partidas|
    && (forall k :: 0 <= k < |o.partidas| && k != i ==> r.partidas[k] == o.partidas[k])
    && r == o.(partidas := r.partidas, estado := r.estado, actualizado := r.actualizado)
  }

  /** Money, notes and payment of a stage, which locking does not touch. */
  predicate MismaNegociacion(p: Partida, q: Partida) {
    q.notas == p.notas && q.propuesto == p.propuesto && q.turno == p.turno && q.pago == p.pago
    && q.recibo == p.recibo && q.monto == p.monto && q.detalle == p.detalle
  }

  /** Nobody else can move stage `i`: an action of the negotiation by anyone without the role
      `rol` is refused. */
  ghost predicate SoloMueve(o: Obra, i: nat, rol: Option<Rol>) {
    forall a: Accion, q: Persona, t: int :: EsJugada(a, i) && (o.RolDe(q.id) != rol || rol.None?) ==>
      Ejecutar(o, a, q, t).error.Some?
  }

  // ----- locking

  /** A proposal can be cancelled by either person, and then the job is as it was but for the
      number of the lock and its price. */
  ghost predicate PropuestaBien(o: Obra, r: Obra, i: nat, quien: Persona, precio: Option<PrecioFijado>) {
    && SoloPartida(o, r, i) && MismaNegociacion(o.partidas[i], r.partidas[i]) && o.RolDe(quien.id).Some?
    && (o.moneda.Usd? ==>
          && precio.Some? && PiconeroPartida(r, i) == Some(precio.value.piconero)
          && MasCercano(precio.value.piconero, o.partidas[i].Capital(o.garantia), precio.value.centavosPorXmr))
    && EncerrarConfirmar(r, i, quien, 0).error.Some?
    && (forall q: Persona, t: int :: o.RolDe(q.id).Some? ==>
          var u := EncerrarCancelar(r, i, q, t);
          && u.error.None? && SoloPartida(o, u.obra, i)
          && u.obra.partidas[i] == o.partidas[i].(encerrarSeq := u.obra.partidas[i].encerrarSeq, precio := None,
                                                   encerradoPor := None))
  }

  lemma ProponerBien(o: Obra, i: nat, quien: Persona, precio: Option<PrecioFijado>, ahora: int)
    requires EncerrarProponer(o, i, quien, precio, ahora).error.None?
    ensures PropuestaBien(o, EncerrarProponer(o, i, quien, precio, ahora).obra, i, quien, precio)
  {
    var r := EncerrarProponer(o, i, quien, precio, ahora).obra;
    if o.moneda.Usd? {
      UsdAPiconeroEsElMasCercano(precio.value.usdCentavos, precio.value.centavosPorXmr, precio.value.piconero);
      PrecioFijaElPiconero(r, i);
    }
  }

  /** Only the other person funds, and the piconero stay what the proposal fixed. */
  predicate FondeoBien(o: Obra, r: Obra, i: nat, quien: Persona) {
    && SoloPartida(o, r, i) && MismaNegociacion(o.partidas[i], r.partidas[i]) && r.estado == o.estado
    && o.RolDe(quien.id).Some? && PiconeroPartida(r, i) == PiconeroPartida(o, i)
    && o.partidas[i].encerradoPor == r.partidas[i].encerradoPor != None
    && r.partidas[i].encerradoPor.value.id != quien.id
  }

  lemma ConfirmarEncierreBien(o: Obra, i: nat, quien: Persona, ahora: int)
    requires EncerrarConfirmar(o, i, quien, ahora).error.None?
    ensures FondeoBien(o, EncerrarConfirmar(o, i, quien, ahora).obra, i, quien)
  {
  }

  /** After a cancellation both people can propose again, at whatever coherent price. */
  ghost predicate CancelacionBien(o: Obra, r: Obra, i: nat) {
    && SoloPartida(o, r, i) && MismaNegociacion(o.partidas[i], r.partidas[i]) && r.estado == o.estado
    && forall q: Persona, precio: Option<PrecioFijado>, t: int ::
         (EncerrarProponer(r, i, q, precio, t).error.None? <==>
            o.RolDe(q.id).Some? && (o.moneda.Usd? ==>
              && precio.Some? && precio.value.Coherente()
              && precio.value.usdCentavos == o.partidas[i].Capital(o.garantia)))
  }

  lemma CancelarBien(o: Obra, i: nat, quien: Persona, ahora: int)
    requires EncerrarCancelar(o, i, quien, ahora).error.None?
    ensures CancelacionBien(o, EncerrarCancelar(o, i, quien, ahora).obra, i)
  {
  }

  // ----- the negotiation

  /** After a note only the other person can move the stage, and what waits is its
      percentage. */
  ghost predicate NotaBien(o: Obra, r: Obra, i: nat, quien: Persona, pct: u32) {
    && SoloPartida(o, r, i) && r.estado == o.estado && 1 <= pct <= 100
    && |r.partidas[i].notas| == |o.partidas[i].notas| + 1 && o.partidas[i].notas <= r.partidas[i].notas
    && r.partidas[i].notas[|o.partidas[i].notas|].autorId == quien.id
    && r.partidas[i].propuesto == Some(pct) && o.partidas[i].estado.Rango() <= EN_TRATO == r.partidas[i].estado.Rango()
    && o.RolDe(quien.id).Some? && SoloMueve(r, i, r.partidas[i].turno)
    && (o.mandante.id != o.contratista.id ==> r.partidas[i].turno == Some(OtroRol(o.RolDe(quien.id).value)))
  }

  lemma AvisarBien(o: Obra, i: nat, quien: Persona, pct: u32, nota: string, ahora: int)
    requires AvisarTermino(o, i, quien, pct, nota, ahora).error.None?
    ensures NotaBien(o, AvisarTermino(o, i, quien, pct, nota, ahora).obra, i, quien, pct)
  {
  }

  lemma ContraPagoBien(o: Obra, i: nat, quien: Persona, pct: u32, nota: string, ahora: int)
    requires ContraPago(o, i, quien, pct, nota, ahora).error.None?
    ensures NotaBien(o, ContraPago(o, i, quien, pct, nota, ahora).obra, i, quien, pct)
    ensures o.partidas[i].propuesto != Some(pct)
  {
  }

  /** A payment is of the percentage that waited, ends the negotiation of the stage for good,
      and closes the job exactly when it was the last one. */
  ghost predicate PagoBien(o: Obra, r: Obra, i: nat, quien: Persona) {
    && SoloPartida(o, r, i) && o.partidas[i].turno == o.RolDe(quien.id) != None
    && r.partidas[i].notas == o.partidas[i].notas && r.partidas[i].pago == o.partidas[i].propuesto != None
    && r.partidas[i].recibo.Some?
    && r.partidas[i].recibo.value.monto == MontoPct(o.partidas[i].Capital(o.garantia), r.partidas[i].pago.value)
    && SoloMueve(r, i, None)
    && (r.TodasPagadas() ==> r.estado == Cerrada) && (!r.TodasPagadas() ==> r.estado == o.estado)
  }

  lemma AceptarPagoBien(o: Obra, i: nat, quien: Persona, ahora: int)
    requires AceptarPago(o, i, quien, ahora).error.None?
    ensures PagoBien(o, AceptarPago(o, i, quien, ahora).obra, i, quien)
  {
  }

  // ----- the terms

  /** Confirming leaves only fresh stages, and balances exactly when the terms cover the price. */
  predicate ConfirmacionBien(o: Obra, r: Obra) {
    && r.estado == Acordada && r.contra.None? && r.trabajo == o.trabajo && o.contra.Some?
    && (forall k :: 0 <= k < |r.partidas| ==> r.partidas[k].estado.Pendiente? && SinTrato(r.partidas[k]))
    && (Cuadra(r) <==> CubreTodo(o.contra.value, o.trabajo))
  }

  lemma ConfirmarBien(o: Obra, quien: string, ahora: int)
    requires ConfirmarContra(o, quien, ahora).error.None?
    ensures ConfirmacionBien(o, ConfirmarContra(o, quien, ahora).obra)
  {
    ConfirmarCuadraSi(o, ahora);
  }

  /** Rejecting goes back to the published bond, and balances when that bond divides the price. */
  predicate RechazoBien(o: Obra, r: Obra) {
    && r.estado == Rechazada && r.contra.None? && r.trabajo == o.trabajo
    && var g := if o.garantiaPublicada > 0 then o.garantiaPublicada else o.garantia;
    && (NPartidas(o.trabajo, g).Ok? && RechazoEntra(o) ==> Cuadra(r) && r.garantia == g)
  }

  lemma RechazarBien(o: Obra, quien: string, ahora: int)
    requires RechazarContra(o, quien, ahora).error.None?
    ensures RechazoBien(o, RechazarContra(o, quien, ahora).obra)
  {
    var r := RechazarContra(o, quien, ahora).obra;
    var g := if o.garantiaPublicada > 0 then o.garantiaPublicada else o.garantia;
    if NPartidas(o.trabajo, g).Ok? {
      NPartidasCubreElTrabajo(o.trabajo, g);
      SumaDeIguales(r.partidas, r.garantia);
    }
  }

  /** Editing changes one text and nothing else, and a text that is not empty reaches every
      pending copy of the stage it is delivered to. */
  ghost predicate EdicionBien(o: Obra, r: Obra, i: nat) {
    && SoloPartida(o, r, i) && r.estado == o.estado && o.partidas[i].estado.Pendiente?
    && r.partidas[i] == o.partidas[i].(detalle := r.partidas[i].detalle) && |r.partidas[i].detalle| <= MAX_DETALLE
    && (r.partidas[i].detalle != "" ==>
          forall p: Partida :: p.estado.Pendiente? ==> Fusion(p, r.partidas[i]).detalle == r.partidas[i].detalle)
  }

  lemma EditarBien(o: Obra, i: nat, quien: Persona, detalle: string, ahora: int)
    requires EditarDetalle(o, i, quien, detalle, ahora).error.None?
    ensures EdicionBien(o, EditarDetalle(o, i, quien, detalle, ahora).obra, i)
  {
  }

  // ----- extra stages and endings

  /** Only the other person can answer an extra stage; refused, the job is as before but for
      its number. */
  ghost predicate ExtraBien(o: Obra, r: Obra, quien: Persona) {
    && r == o.(extra := r.extra, extraSeq := r.extraSeq, actualizado := r.actualizado)
    && (forall t :: AceptarExtra(r, quien, t).error.Some? && RechazarExtra(r, quien, t).error.Some?)
    && (forall q: Persona, t: int :: o.RolDe(q.id).Some? && q.id != quien.id ==>
          var u := RechazarExtra(r, q, t);
          u.error.None? && u.obra == o.(extraSeq := u.obra.extraSeq, actualizado := t))
  }

  lemma ProponerExtraBien(o: Obra, quien: Persona, detalle: string, monto: u64, ahora: int)
    requires ProponerExtra(o, quien, detalle, monto, ahora).error.None?
    ensures ExtraBien(o, ProponerExtra(o, quien, detalle, monto, ahora).obra, quien)
  {
  }

  /** No extra stage waits: either person, and nobody else, can propose one with a text and an
      amount. */
  ghost predicate ExtraLibre(o: Obra) {
    forall q: Persona, texto: string, monto: u64, t: int ::
      ProponerExtra(o, q, texto, monto, t).error.None? <==>
        o.RolDe(q.id).Some? && monto > 0 && LimpiaDetalle(texto) != ""
  }

  lemma RechazarExtraBien(o: Obra, quien: Persona, ahora: int)
    requires RechazarExtra(o, quien, ahora).error.None?
    ensures ExtraLibre(RechazarExtra(o, quien, ahora).obra)
  {
  }

  /** An accepted extra stage adds to the price exactly what it holds. */
  predicate ExtraAceptada(o: Obra, r: Obra, quien: Persona) {
    && o.extra.Some? && o.extra.value.por.id != quien.id && r.extra.None?
    && o.partidas <= r.partidas && |r.partidas| == |o.partidas| + 1
    && r.trabajo == o.trabajo + o.extra.value.monto
    && (o.extra.value.monto > 0 ==>
          SumaCapital(r.partidas, r.garantia) == SumaCapital(o.partidas, o.garantia) + o.extra.value.monto)
  }

  lemma AceptarExtraBien(o: Obra, quien: Persona, ahora: int)
    requires AceptarExtra(o, quien, ahora).error.None?
    ensures ExtraAceptada(o, AceptarExtra(o, quien, ahora).obra, quien)
  {
    var r := AceptarExtra(o, quien, ahora).obra;
    assert r.partidas[..|r.partidas| - 1] == o.partidas;
  }

  /** Without anything at risk a job ends at once; otherwise only the other person can end it,
      and if refused the job is as before but for a number. */
  ghost predicate AbandonoBien(o: Obra, r: Obra, quien: Persona) {
    && r.partidas == o.partidas && r.trabajo == o.trabajo
    && (!o.HayRiesgo() ==> r.estado == Abandonada && r.extra.None? && r.cierre.None?)
    && (o.HayRiesgo() ==>
          && r == o.(cierre := r.cierre, cierreSeq := r.cierreSeq, actualizado := r.actualizado)
          && (forall t :: AceptarCierre(r, quien, t).error.Some? && RechazarCierre(r, quien, t).error.Some?)
          && (forall q: Persona, t: int :: o.RolDe(q.id).Some? && q.id != quien.id ==>
                && AceptarCierre(r, q, t).error.None? && AceptarCierre(r, q, t).obra.estado == Abandonada
                && RechazarCierre(r, q, t).error.None?
                && RechazarCierre(r, q, t).obra
                     == o.(cierreSeq := RechazarCierre(r, q, t).obra.cierreSeq, actualizado := t)))
  }

  lemma AbandonarBien(o: Obra, quien: Persona, ahora: int)
    requires Abandonar(o, quien, ahora).error.None?
    ensures AbandonoBien(o, Abandonar(o, quien, ahora).obra, quien)
  {
  }

  // ----- every action

  /** Whoever acts is one of the two people; who they are, the currency and the published bond
      never change; and a refusal leaves the copy as it was, but for an extra stage that does
      not fit the price. */
  predicate ActoBien(o: Obra, a: Accion, quien: Persona, s: Salida) {
    var r := s.obra;
    && (s.error.None? ==> o.RolDe(quien.id).Some?)
    && r.mandante == o.mandante && r.contratista == o.contratista && r.id == o.id && r.moneda == o.moneda
    && r.garantiaPublicada == o.garantiaPublicada
    && (s.error.Some? ==> r == o || (a.AceptaExtra? && s.error == Some(Monto) && r == o.(extra := None)))
  }

  lemma ActuarBien(o: Obra, a: Accion, quien: Persona, ahora: int)
    ensures ActoBien(o, a, quien, Ejecutar(o, a, quien, ahora))
  {
    if DePartida(a) {
      ActoDePartida(o, a, quien, ahora);
    } else {
      ActoDeObra(o, a, quien, ahora);
    }
  }

  lemma ActoDePartida(o: Obra, a: Accion, quien: Persona, ahora: int)
    requires DePartida(a)
    ensures ActoBien(o, a, quien, Ejecutar(o, a, quien, ahora))
  {
  }

  lemma ActoDeObra(o: Obra, a: Accion, quien: Persona, ahora: int)
    requires !DePartida(a)
    ensures ActoBien(o, a, quien, Ejecutar(o, a, quien, ahora))
  {
  }

  /** Nothing more is done on the terms of the job, by anyone. */
  ghost predicate Terminada(o: Obra) {
    && (forall q: Persona, texto: string, monto: u64, t: int :: ProponerExtra(o, q, texto, monto, t).error.Some?)
    && (forall q: Persona, t: int :: AceptarExtra(o, q, t).error.Some? && RechazarExtra(o, q, t).error.Some?
          && Abandonar(o, q, t).error.Some? && AceptarCierre(o, q, t).error.Some?)
    && (forall i: nat, q: Persona, texto: string, t: int :: EditarDetalle(o, i, q, texto, t).error.Some?)
    && (forall i: nat, precio: Option<PrecioFijado> :: !Permitida(o, Propone(i, precio)))
  }

  /** No closing waits: while the job is open either person can ask for one, or leave. */
  ghost predicate CierreLibre(o: Obra) {
    forall q: Persona, t: int :: Abandonar(o, q, t).error.None? <==> o.RolDe(q.id).Some? && !o.Cortada()
  }

  /** Accepting a closing ends the job and touches no stage; refusing it touches nothing. */
  predicate CierreBien(o: Obra, r: Obra, quien: Persona) {
    && o.cierre.Some? && o.cierre.value.id != quien.id && r.cierre.None?
    && r.partidas == o.partidas && r.trabajo == o.trabajo && (r.estado == o.estado || r.estado == Abandonada)
  }

  lemma ResponderCierreBien(o: Obra, quien: Persona, ahora: int)
    ensures AceptarCierre(o, quien, ahora).error.None? ==>
      CierreBien(o, AceptarCierre(o, quien, ahora).obra, quien) && Terminada(AceptarCierre(o, quien, ahora).obra)
    ensures RechazarCierre(o, quien, ahora).error.None? ==>
      CierreBien(o, RechazarCierre(o, quien, ahora).obra, quien)
      && RechazarCierre(o, quien, ahora).obra.estado == o.estado && CierreLibre(RechazarCierre(o, quien, ahora).obra)
  {
  }

  /** The invariants of a copy: the books balance, it says Cerrada only when all is
      paid, and it is well formed. */
  predicate CopiaSana(o: Obra) {
    Libro(o) && CierraCasi(o) && Formada(o, o.mandante.id, o.contratista.id)
  }

  lemma ActuarConserva(o: Obra, a: Accion, quien: Persona, ahora: int)
    requires CopiaSana(o) && Permitida(o, a)
    ensures CopiaSana(Ejecutar(o, a, quien, ahora).obra)
  {
    ActuarBien(o, a, quien, ahora);
    AccionCuadra(o, a, quien, ahora);
    AccionConservaCasi(o, a, quien, ahora);
    AccionEnForma(o, a, quien, ahora, o.mandante.id, o.contratista.id);
  }
}
