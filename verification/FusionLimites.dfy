/** Where the merge stops being commutative, monotone or absorbing: for each limit, copies
    that the actions produce and the exact condition for all copies. */
module FusionLimites {
  import opened Base
  import opened Precio
  import opened Partidas
  import opened FusionPartida
  import opened Obras
  import opened Acuerdo
  import opened FusionObras

  // ----- the order of two deliveries

  /** Merging in either direction gives the same state exactly when notes were written, or
      the numbers are equal, or the copy with the larger number is not behind in state. */
  lemma EstadoConmutaSi(p: Partida, o: Partida)
    ensures Fusion(p, o).estado == Fusion(o, p).estado <==>
      || p.estado.Rango() >= EN_TRATO || o.estado.Rango() >= EN_TRATO
      || p.encerrarSeq == o.encerrarSeq
      || (p.encerrarSeq > o.encerrarSeq && p.estado.Rango() >= o.estado.Rango())
      || (o.encerrarSeq > p.encerrarSeq && o.estado.Rango() >= p.estado.Rango())
  {
    EstadoFundido(p, o);
    EstadoFundido(o, p);
  }

  /** The larger number decides before any note; then the state that is further along. */
  lemma EstadoFundido(p: Partida, o: Partida)
    ensures var e := if o.encerrarSeq > p.encerrarSeq && p.estado.Rango() < EN_TRATO then o.estado else p.estado;
      Fusion(p, o).estado == if o.estado.Rango() > e.Rango() then o.estado else e
  {
  }

  /** A pending stage stays pending exactly when what arrives is pending too, whatever the
      numbers say. */
  lemma PendienteSigueSi(p: Partida, o: Partida)
    requires p.estado.Pendiente?
    ensures Fusion(p, o).estado.Pendiente? <==> o.estado.Pendiente?
  {
  }

  /** So a cancelled lock comes back: the proposal `a`, delivered again after its own
      cancellation `b`, is open once more; delivered the other way round it is cancelled. */
  lemma LaCanceladaVuelve(o: Obra, i: nat, quien: Persona, precio: Option<PrecioFijado>, otro: Persona, t: int, u: int)
    requires Contada(o) && i < |o.partidas| && o.partidas[i].encerrarSeq < U32_MAX - 1
    requires EncerrarProponer(o, i, quien, precio, t).error.None? && o.RolDe(otro.id).Some?
    ensures var a := EncerrarProponer(o, i, quien, precio, t).obra;
      var r := EncerrarCancelar(a, i, otro, u);
      && r.error.None? && r.obra.partidas[i].estado.Pendiente?
      && Contada(FusionObra(r.obra, a)) && FusionObra(r.obra, a).nPartidas == o.nPartidas
      && Contada(FusionObra(a, r.obra)) && FusionObra(a, r.obra).nPartidas == o.nPartidas
      && FusionObra(r.obra, a).partidas[i].estado.Encerrando?
      && FusionObra(a, r.obra).partidas[i].estado.Pendiente?
  {
    var a := EncerrarProponer(o, i, quien, precio, t).obra;
    var b := EncerrarCancelar(a, i, otro, u).obra;
    PropuestaHecha(o, i, quien, precio, t);
    CancelacionHecha(a, i, otro, u);
    FusionPorPartida(b, a);
    FusionPorPartida(a, b);
    CanceladaYPropuesta(a.partidas[i], b.partidas[i]);
  }

  lemma CancelacionHecha(a: Obra, i: nat, otro: Persona, u: int)
    requires Contada(a) && i < |a.partidas| && a.partidas[i].estado.Encerrando? && a.RolDe(otro.id).Some?
    requires a.partidas[i].encerrarSeq < U32_MAX
    ensures var r := EncerrarCancelar(a, i, otro, u);
      && r.error.None? && Contada(r.obra) && r.obra.nPartidas == a.nPartidas
      && r.obra.partidas[i].estado.Pendiente? && r.obra.partidas[i].encerrarSeq == a.partidas[i].encerrarSeq + 1
  {
  }

  lemma CanceladaYPropuesta(a: Partida, b: Partida)
    requires a.estado.Encerrando? && b.estado.Pendiente? && b.encerrarSeq == a.encerrarSeq + 1
    ensures Fusion(b, a).estado.Encerrando? && Fusion(a, b).estado.Pendiente?
  {
  }

  /** Crossed proposals end with one price, whichever arrives where, exactly when the one
      that survives has a price or the other has none either. */
  lemma PreciosCruzadosConmutanSi(a: Partida, b: Partida, s: u32)
    requires a.estado.Encerrando? && b.estado.Encerrando? && a.encerrarSeq == b.encerrarSeq == s
    requires a.encerradoPor.Some? && b.encerradoPor.Some? && Menor(a.encerradoPor.value.id, b.encerradoPor.value.id)
    ensures Fusion(a, b).encerradoPor == Fusion(b, a).encerradoPor == a.encerradoPor
    ensures Fusion(a, b).precio == Fusion(b, a).precio <==> a.precio.Some? || b.precio.None?
    ensures Fusion(b, a).precio == a.precio
  {
    MenorAsimetrico(a.encerradoPor.value.id, b.encerradoPor.value.id);
  }

  // ----- the price once there are notes

  /** When a copy with notes or a payment meets another one, both ways end with one price exactly
      when: against a copy without notes, its number is larger and it has a price or the other
      has none, or its number is not larger and the other has none or the same; against a copy
      in the same state, they have the same or one has none; otherwise the copy that is behind
      has none or the same. */
  lemma UnSoloPrecioSi(p: Partida, q: Partida)
    requires p.estado.Rango() >= EN_TRATO
    ensures Fusion(p, q).precio == Fusion(q, p).precio <==>
      if q.estado.Rango() < EN_TRATO && p.encerrarSeq > q.encerrarSeq then p.precio.Some? || q.precio.None?
      else if q.estado == p.estado then p.precio == q.precio || p.precio.None? || q.precio.None?
      else if q.estado.Rango() < p.estado.Rango() then q.precio.None? || q.precio == p.precio
      else p.precio.None? || q.precio == p.precio
  {
  }

  /** What follows a proposal on the two devices: `a` after the other person funded and finished,
      `b` after a cancellation and a new proposal at the price `nuevo`. */
  lemma SeSeparan(a: Partida, b: Partida, nuevo: PrecioFijado)
    requires a.estado.EnTrato? && b.estado.Encerrando? && b.encerrarSeq > a.encerrarSeq && b.precio == Some(nuevo)
    requires a.precio.Some?
    ensures Fusion(a, b).estado.EnTrato? && Fusion(b, a).estado.EnTrato?
    ensures Fusion(a, b).precio == a.precio && Fusion(b, a).precio == b.precio
    ensures forall otras :: FusionTodas(Fusion(a, b), otras).precio == a.precio
    ensures forall otras :: FusionTodas(Fusion(b, a), otras).precio == b.precio
  {
    forall otras ensures FusionTodas(Fusion(a, b), otras).precio == a.precio {
      NingunaEntregaRetrocede(Fusion(a, b), otras);
    }
    forall otras ensures FusionTodas(Fusion(b, a), otras).precio == b.precio {
      NingunaEntregaRetrocede(Fusion(b, a), otras);
    }
  }

  /** It happens: the contractor funds a proposed stage and reports it finished while the other
      device cancels it and proposes again at another price. After exchanging copies both are in
      the negotiation of the payment, each with its own price, whatever arrives later. */
  lemma DosPreciosEnTrato(o: Obra, i: nat, m: Persona, c: Persona, nuevo: PrecioFijado, pct: u32, nota: string, t: int)
    requires Contada(o) && i < |o.partidas| && o.partidas[i].encerrarSeq < U32_MAX - 2
    requires o.partidas[i].estado.Encerrando? && o.partidas[i].precio.Some? && o.moneda.Usd?
    requires EncerrarConfirmar(o, i, c, t).error.None?
    requires AvisarTermino(EncerrarConfirmar(o, i, c, t).obra, i, c, pct, nota, t).error.None?
    requires EncerrarProponer(EncerrarCancelar(o, i, m, t).obra, i, m, Some(nuevo), t).error.None?
    ensures var a := AvisarTermino(EncerrarConfirmar(o, i, c, t).obra, i, c, pct, nota, t).obra;
      var b := EncerrarProponer(EncerrarCancelar(o, i, m, t).obra, i, m, Some(nuevo), t).obra;
      && Contada(FusionObra(a, b)) && Contada(FusionObra(b, a))
      && FusionObra(a, b).nPartidas == FusionObra(b, a).nPartidas == o.nPartidas
      && var x, y := FusionObra(a, b).partidas[i], FusionObra(b, a).partidas[i];
      && x.estado.EnTrato? && y.estado.EnTrato?
      && (forall otras :: FusionTodas(x, otras).precio == o.partidas[i].precio)
      && (forall otras :: FusionTodas(y, otras).precio == Some(nuevo))
  {
    var a := AvisarTermino(EncerrarConfirmar(o, i, c, t).obra, i, c, pct, nota, t).obra;
    var b := EncerrarProponer(EncerrarCancelar(o, i, m, t).obra, i, m, Some(nuevo), t).obra;
    FondeadaYTerminada(o, i, c, pct, nota, t, a);
    PropuestaOtraVez(o, i, m, nuevo, t, b);
    FusionPorPartida(a, b);
    FusionPorPartida(b, a);
    SeSeparan(a.partidas[i], b.partidas[i], nuevo);
  }

  lemma FondeadaYTerminada(o: Obra, i: nat, c: Persona, pct: u32, nota: string, t: int, a: Obra)
    requires Contada(o) && i < |o.partidas| && o.partidas[i].encerrarSeq < U32_MAX - 2
    requires EncerrarConfirmar(o, i, c, t).error.None?
    requires AvisarTermino(EncerrarConfirmar(o, i, c, t).obra, i, c, pct, nota, t).error.None?
    requires a == AvisarTermino(EncerrarConfirmar(o, i, c, t).obra, i, c, pct, nota, t).obra
    ensures Contada(a) && a.nPartidas == o.nPartidas && a.partidas[i].estado.EnTrato?
    ensures a.partidas[i].precio == o.partidas[i].precio && a.partidas[i].encerrarSeq == o.partidas[i].encerrarSeq + 1
  {
  }

  lemma PropuestaOtraVez(o: Obra, i: nat, m: Persona, nuevo: PrecioFijado, t: int, b: Obra)
    requires Contada(o) && i < |o.partidas| && o.partidas[i].encerrarSeq < U32_MAX - 2 && o.moneda.Usd?
    requires o.partidas[i].estado.Encerrando?
    requires EncerrarProponer(EncerrarCancelar(o, i, m, t).obra, i, m, Some(nuevo), t).error.None?
    requires b == EncerrarProponer(EncerrarCancelar(o, i, m, t).obra, i, m, Some(nuevo), t).obra
    ensures Contada(b) && b.nPartidas == o.nPartidas && b.partidas[i].estado.Encerrando?
    ensures b.partidas[i].precio == Some(nuevo) && b.partidas[i].encerrarSeq == o.partidas[i].encerrarSeq + 2
  {
  }

  // ----- the length of the stage list

  /** A merge shortens the list exactly when the other job is further along and counts fewer
      stages. */
  lemma SeAcortaSi(s: Obra, o: Obra)
    requires Contada(s) && Contada(o)
    ensures |FusionObra(s, o).partidas| < |s.partidas| <==>
      o.estado.Rango() > s.estado.Rango() && o.nPartidas < s.nPartidas
  {
    FusionHechos(s, o);
  }

  /** It happens to an accepted extra stage: one person accepts it while the other, on a copy
      that still has it pending, proposes to lock a stage. */
  lemma LaExtraAceptadaSePierde(o: Obra, c: Persona, i: nat, quien: Persona, precio: Option<PrecioFijado>,
                                t: int, u: int)
    requires Contada(o) && o.estado == Acordada && o.nPartidas < U32_MAX
    requires AceptarExtra(o, c, t).error.None? && EncerrarProponer(o, i, quien, precio, u).error.None?
    ensures var x, y := AceptarExtra(o, c, t).obra, EncerrarProponer(o, i, quien, precio, u).obra;
      && |x.partidas| == |o.partidas| + 1
      && |FusionObra(x, y).partidas| == |o.partidas|
  {
    var x, y := AceptarExtra(o, c, t).obra, EncerrarProponer(o, i, quien, precio, u).obra;
    ExtraHecha(o, c, t);
    PropuestaHecha(o, i, quien, precio, u);
    FusionHechos(x, y);
  }

  lemma ExtraHecha(o: Obra, c: Persona, t: int)
    requires Contada(o) && o.nPartidas < U32_MAX && AceptarExtra(o, c, t).error.None?
    ensures var x := AceptarExtra(o, c, t).obra;
      Contada(x) && x.nPartidas == o.nPartidas + 1 && x.estado == o.estado && x.trabajo >= o.trabajo
  {
  }

  lemma PropuestaHecha(o: Obra, i: nat, quien: Persona, precio: Option<PrecioFijado>, u: int)
    requires Contada(o) && EncerrarProponer(o, i, quien, precio, u).error.None?
    ensures var y := EncerrarProponer(o, i, quien, precio, u).obra;
      && Contada(y) && y.nPartidas == o.nPartidas && y.estado == EnMarcha
      && y.mandante == o.mandante && y.contratista == o.contratista
      && i < |o.partidas| && y.partidas[i].estado.Encerrando?
      && y.partidas[i].encerrarSeq == SumaUno(o.partidas[i].encerrarSeq)
  {
  }

  /** A copy that brings more stages and a new pending extra at once loses that extra for
      good: neither this delivery nor any repetition of it shows it. */
  lemma LaExtraQueLlegaConOtraSePierde(s: Obra, o: Obra)
    requires o.nPartidas > s.nPartidas && o.estado == s.estado && (s.estado == Acordada || s.estado == EnMarcha)
    ensures FusionObra(s, o).extra.None? && FusionObra(FusionObra(s, o), o).extra.None?
  {
    var r := FusionObra(s, o);
    FusionHechos(s, o);
    FusionObraNoRetrocede(s, o);
    FusionObraNoRetrocede(r, o);
    assert r.extra.None? by { PrimeraSinExtra(s, o); }
    assert o.extraSeq <= r.extraSeq;
  }

  /** Between copies in the same open state, a newer pending extra arrives exactly when the copy
      that brings it does not count more stages. */
  lemma LaExtraPendienteLlegaSi(s: Obra, o: Obra)
    requires o.estado == s.estado && (s.estado == Acordada || s.estado == EnMarcha)
    requires o.extra.Some? && o.extraSeq > s.extraSeq
    ensures FusionObra(s, o).extra == o.extra <==> o.nPartidas <= s.nPartidas
  {
    if o.nPartidas > s.nPartidas {
      PrimeraSinExtra(s, o);
    } else {
      var c := FusionCuerpo(FusionClaves(s, o), o);
      CuerpoHechos(FusionClaves(s, o), o);
      var e := FusionExtra(c, o);
      assert e.extra == o.extra && e.estado == s.estado;
      assert FusionCierre(e, o).extra == e.extra;
      EstadoHechos(FusionCierre(e, o), o);
    }
  }

  lemma PrimeraSinExtra(s: Obra, o: Obra)
    requires o.nPartidas > s.nPartidas && o.estado == s.estado && (s.estado == Acordada || s.estado == EnMarcha)
    ensures FusionObra(s, o).extra.None?
  {
    var c := FusionCuerpo(FusionClaves(s, o), o);
    CuerpoHechos(FusionClaves(s, o), o);
    assert CreceCon(c, o);
    var e := FusionExtra(c, o);
    assert e.extra.None?;
    CierreHechos(e, o);
    EstadoHechos(FusionCierre(e, o), o);
  }

  // ----- how many deliveries absorb a copy

  /** One delivery of a copy is enough unless it moves the stage forward past its number and
      one of three fields is then left for the second: the amount, the turn of a paid copy,
      or the time of a lock without proposer. */
  lemma UnaEntregaAlcanzaSi(p: Partida, o: Partida)
    ensures Fusion(Fusion(p, o), o) == Fusion(p, o) <==> !DejaParaLaSegunda(p, o)
  {
    ReentregaEsEstable(p, o);
  }

  predicate DejaParaLaSegunda(p: Partida, o: Partida) {
    && o.estado.Rango() > p.estado.Rango() && !(o.encerrarSeq > p.encerrarSeq && p.estado.Rango() < EN_TRATO)
    && (|| (p.monto == 0 && o.monto > 0)
        || (o.estado.Pagada? && o.turno.Some?)
        || (p.encerradoPor.None? && o.encerradoPor.None? && p.encerradoCuando != o.encerradoCuando))
  }

  /** What the actions leave: a lock has a number and a proposer, and a payment ends the turn. */
  predicate DeAccion(p: Partida) {
    && (!p.estado.Pendiente? ==> p.encerrarSeq > 0 && p.encerradoPor.Some?)
    && (p.estado.Pagada? ==> p.turno.None?)
  }

  /** Between copies of one stage that the actions made, one delivery is enough. */
  lemma UnaEntregaAlcanza(p: Partida, o: Partida)
    requires DeAccion(p) && DeAccion(o)
    requires p.monto == o.monto || p == Nueva("", 0)
    ensures Fusion(Fusion(p, o), o) == Fusion(p, o)
  {
    UnaEntregaAlcanzaSi(p, o);
  }

  /** The other case is a lock that came without its number, as from a device that does not
      know the field, and brings an amount that the first copy lacks. */
  lemma UnaReentregaNoAlcanza(monto: u64, quien: Persona, cuando: int)
    requires monto > 0
    ensures var p := Nueva("", 0);
      var o := Nueva("", monto).(estado := Encerrada, encerradoPor := Some(quien), encerradoCuando := cuando);
      Fusion(p, o).monto == 0 && Fusion(Fusion(p, o), o).monto == monto
  {
    var p := Nueva("", 0);
    var o := Nueva("", monto).(estado := Encerrada, encerradoPor := Some(quien), encerradoCuando := cuando);
    assert Fusion(p, o).monto == 0;
    ReentregaEsEstable(p, o);
  }
}
