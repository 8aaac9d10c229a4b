/** The books of every copy in whole runs: on every device and in flight, a copy that has the
    stages and the bond of the deal holds exactly its price. Accepted extra stages are in
    FusionDinero. */
module CorridaDinero {
  import opened Base
  import opened Cuotas
  import opened Partidas
  import opened Obras
  import opened FusionObras
  import opened Acciones
  import opened Corrida
  import opened CorridaSegura
  import opened CorridaEntrega
  import opened Dinero

  /** Stage count, bond and price. */
  predicate MismosTerminos(o: Obra, p: Obra) {
    o.nPartidas == p.nPartidas && o.garantia == p.garantia && o.trabajo == p.trabajo
  }

  /** The bond a rejection goes back to. */
  function Publicada0(o0: Obra): u64 {
    if o0.garantiaPublicada > 0 then o0.garantiaPublicada else o0.garantia
  }

  /** The terms after the counter offer was rejected. */
  predicate Devuelta(o: Obra, o0: Obra) {
    && NPartidas(o0.trabajo, Publicada0(o0)).Ok? && o.garantia == Publicada0(o0)
    && o.nPartidas == NPartidas(o0.trabajo, Publicada0(o0)).valor && o.trabajo == o0.trabajo
  }

  /** The counter offer of the deal asks for the terms the job already has. */
  predicate ContraPropia(o: Obra, o0: Obra) {
    && o.garantiaPublicada == o0.garantiaPublicada
    && (o.contra.Some? ==> o.contra.value.garantia == o0.garantia && o.contra.value.nPartidas == o0.nPartidas)
  }

  predicate Terminos(o: Obra, o0: Obra, modo: Modo) {
    && ContraPropia(o, o0)
    && match modo
       case SinDecidir => MismosTerminos(o, o0)
       case Rechazado => MismosTerminos(o, o0) || (o.estado != Contra && Devuelta(o, o0))
       case Vivo => o.garantia == o0.garantia && (o.nPartidas == o0.nPartidas ==> o.trabajo == o0.trabajo)
  }

  predicate MundoTerminos(w: Mundo, o0: Obra, modo: Modo) {
    (forall l <- w.copias :: Terminos(w.copias[l], o0, modo)) && (forall s <- w.sopa :: Terminos(s, o0, modo))
  }

  // ----- merges

  /** `r` has the published bond of one of the two. */
  predicate PublicadaDe(r: Obra, s: Obra, o: Obra) {
    r.garantiaPublicada == s.garantiaPublicada
    || (o.garantiaPublicada > 0 && r.garantiaPublicada == o.garantiaPublicada)
  }

  /** Whose terms a merge keeps. */
  lemma FusionTerminos(s: Obra, o: Obra)
    ensures var r := FusionObra(s, o);
      var mas := o.estado.Rango() > s.estado.Rango();
      var crece := o.estado.Rango() == s.estado.Rango() && o.nPartidas > s.nPartidas
                   && s.estado != Rechazada && s.estado != Abandonada;
      && (mas ==> MismosTerminos(r, o))
      && (crece ==> r.nPartidas == o.nPartidas && r.trabajo == o.trabajo && r.garantia == s.garantia)
      && (!mas && !crece ==> MismosTerminos(r, s))
      && PublicadaDe(r, s, o)
      && (r.estado == Contra ==> s.estado.Rango() <= Contra.Rango() && (s.estado == Contra || o.estado == Contra))
  {
    var a := FusionClaves(s, o);
    var c := FusionCuerpo(a, o);
    CuerpoTerminos(a, o);
    RestoTerminos(c, o);
    assert CreceCon(c, o) <==> o.estado.Rango() == s.estado.Rango() && o.nPartidas > s.nPartidas
                               && s.estado != Rechazada && s.estado != Abandonada;
  }

  lemma CuerpoTerminos(a: Obra, o: Obra)
    ensures var c := FusionCuerpo(a, o);
      && (o.estado.Rango() > a.estado.Rango() ==> MismosTerminos(c, o) && c.estado == o.estado)
      && (o.estado.Rango() <= a.estado.Rango() ==> MismosTerminos(c, a) && c.estado == a.estado)
      && PublicadaDe(c, a, o)
  {
  }

  lemma RestoTerminos(c: Obra, o: Obra)
    ensures var r := FusionEstado(FusionCierre(FusionExtra(c, o), o), o);
      && (CreceCon(c, o) ==> r.nPartidas == o.nPartidas && r.trabajo == o.trabajo && r.garantia == c.garantia)
      && (!CreceCon(c, o) ==> MismosTerminos(r, c))
      && r.garantiaPublicada == c.garantiaPublicada && (r.estado == Contra ==> c.estado == Contra)
  {
  }

  lemma FusionMantieneTerminos(s: Obra, o: Obra, o0: Obra, modo: Modo, hs: seq<Historia>)
    requires Terminos(s, o0, modo) && Terminos(o, o0, modo)
    requires |hs| == o0.nPartidas && CopiaBien(s, o0, modo, hs) && CopiaBien(o, o0, modo, hs)
    ensures Terminos(FusionObra(s, o), o0, modo)
  {
    FusionTerminos(s, o);
    FusionHechos(s, o);
  }

  // ----- actions

  lemma AccionTerminos(o: Obra, a: Accion, quien: Persona, ahora: int, o0: Obra, modo: Modo)
    requires Terminos(o, o0, modo) && DePartida(a)
    ensures Terminos(Ejecutar(o, a, quien, ahora).obra, o0, modo)
  {
    PartidaMantieneMontos(o, a, quien, ahora);
  }

  lemma ExtraTerminos(o: Obra, a: Accion, quien: Persona, ahora: int, o0: Obra, modo: Modo, hs: seq<Historia>)
    requires Terminos(o, o0, modo) && a.AceptaExtra? && Permitida(o, a)
    requires |hs| == o0.nPartidas && CopiaBien(o, o0, modo, hs)
    ensures Terminos(Ejecutar(o, a, quien, ahora).obra, o0, modo)
  {
  }

  lemma OtraTerminos(o: Obra, a: Accion, quien: Persona, ahora: int, o0: Obra, modo: Modo)
    requires Terminos(o, o0, modo) && !DePartida(a) && !a.AceptaExtra? && !a.Confirma? && !a.Rechaza?
    ensures Terminos(Ejecutar(o, a, quien, ahora).obra, o0, modo)
  {
  }

  /** The answer to the counter offer, in whatever mode it leaves the run. */
  lemma RespuestaTerminos(o: Obra, a: Accion, quien: Persona, ahora: int, o0: Obra, modo: Modo, modo': Modo,
                          hs: seq<Historia>, hs': seq<Historia>)
    requires Terminos(o, o0, modo) && (a.Confirma? || a.Rechaza?) && Permitida(o, a)
    requires modo' != modo ==> modo == SinDecidir
    requires |hs| == |hs'| == o0.nPartidas && CopiaBien(o, o0, modo, hs)
    requires CopiaBien(Ejecutar(o, a, quien, ahora).obra, o0, modo', hs')
    requires Ejecutar(o, a, quien, ahora).error.None? ==> modo == SinDecidir
    ensures Terminos(Ejecutar(o, a, quien, ahora).obra, o0, modo')
  {
  }

  lemma SelloTerminos(o: Obra, f: Obra, o0: Obra, modo: Modo)
    requires Terminos(o, o0, modo) && MismaSalvoSello(o, f)
    ensures Terminos(f, o0, modo)
  {
    var d, e := Desnuda(o), Desnuda(f);
    assert d.nPartidas == o.nPartidas && d.garantia == o.garantia && d.trabajo == o.trabajo && d.contra == o.contra;
    assert e.nPartidas == f.nPartidas && e.garantia == f.garantia && e.trabajo == f.trabajo && e.contra == f.contra;
    assert d.estado == o.estado && e.estado == f.estado;
    assert d.garantiaPublicada == o.garantiaPublicada && e.garantiaPublicada == f.garantiaPublicada;
  }

  // ----- whole runs

  lemma AbreTerminos(o: Obra, o0: Obra, modo: Modo, modo': Modo)
    requires Terminos(o, o0, modo) && (modo' != modo ==> modo == SinDecidir)
    ensures Terminos(o, o0, modo')
  {
  }

  /** Only the principal answers, and only while nothing is decided. */
  lemma SoloAntesDeDecidir(w: Mundo, o0: Obra, modo: Modo, hs: seq<Historia>, l: Lugar, a: Accion, quien: Persona,
                           t: int)
    requires Inv(w, o0, modo, hs) && Posible(w, Local(l, a, quien, t), o0) && (a.Confirma? || a.Rechaza?)
    requires Ejecutar(w.copias[l], a, quien, t).error.None?
    ensures modo == SinDecidir
  {
    assert CopiaBien(w.copias[l], o0, modo, hs);
    assert l == DeMandante;
  }

  lemma LocalTerminos(w: Mundo, e: Evento, o0: Obra, modo: Modo, hs: seq<Historia>, modo': Modo, hs': seq<Historia>)
    requires Inv(w, o0, modo, hs) && Inv(Siguiente(w, e, o0), o0, modo', hs') && (modo' != modo ==> modo == SinDecidir)
    requires MundoTerminos(w, o0, modo) && e.Local? && Posible(w, e, o0)
    ensures Terminos(Ejecutar(w.copias[e.lugar], e.accion, e.quien, e.ahora).obra, o0, modo')
  {
    if e.accion.Confirma? || e.accion.Rechaza? {
      RespuestaLocal(w, e, o0, modo, hs, modo', hs');
    } else {
      QuedaTerminos(w.copias[e.lugar], e.accion, e.quien, e.ahora, o0, modo, hs);
      AbreTerminos(Ejecutar(w.copias[e.lugar], e.accion, e.quien, e.ahora).obra, o0, modo, modo');
    }
  }

  lemma QuedaTerminos(o: Obra, a: Accion, q: Persona, t: int, o0: Obra, modo: Modo, hs: seq<Historia>)
    requires Terminos(o, o0, modo) && Permitida(o, a) && !a.Confirma? && !a.Rechaza?
    requires |hs| == o0.nPartidas && CopiaBien(o, o0, modo, hs)
    ensures Terminos(Ejecutar(o, a, q, t).obra, o0, modo)
  {
    if DePartida(a) {
      AccionTerminos(o, a, q, t, o0, modo);
    } else if a.AceptaExtra? {
      ExtraTerminos(o, a, q, t, o0, modo, hs);
    } else {
      OtraTerminos(o, a, q, t, o0, modo);
    }
  }

  lemma RespuestaLocal(w: Mundo, e: Evento, o0: Obra, modo: Modo, hs: seq<Historia>, modo': Modo, hs': seq<Historia>)
    requires Inv(w, o0, modo, hs) && Inv(Siguiente(w, e, o0), o0, modo', hs') && (modo' != modo ==> modo == SinDecidir)
    requires MundoTerminos(w, o0, modo) && e.Local? && Posible(w, e, o0) && (e.accion.Confirma? || e.accion.Rechaza?)
    ensures Terminos(Ejecutar(w.copias[e.lugar], e.accion, e.quien, e.ahora).obra, o0, modo')
  {
    var o, a, q, t := w.copias[e.lugar], e.accion, e.quien, e.ahora;
    var r := Ejecutar(o, a, q, t).obra;
    if Ejecutar(o, a, q, t).error.None? {
      SoloAntesDeDecidir(w, o0, modo, hs, e.lugar, a, q, t);
    }
    assert Siguiente(w, e, o0).copias[e.lugar] == r;
    assert CopiaBien(r, o0, modo', hs');
    assert CopiaBien(o, o0, modo, hs) && |hs'| == |hs|;
    RespuestaTerminos(o, a, q, t, o0, modo, modo', hs, hs');
  }

  lemma EventoTerminos(w: Mundo, e: Evento, o0: Obra, modo: Modo, hs: seq<Historia>, modo': Modo, hs': seq<Historia>)
    requires Inv(w, o0, modo, hs) && Inv(Siguiente(w, e, o0), o0, modo', hs') && (modo' != modo ==> modo == SinDecidir)
    requires MundoTerminos(w, o0, modo)
    ensures MundoTerminos(Siguiente(w, e, o0), o0, modo')
  {
    if e.Local? && Posible(w, e, o0) {
      MundoAbre(w, o0, modo, modo');
      LocalTerminos(w, e, o0, modo, hs, modo', hs');
      PuestaTerminos(w, e.lugar, Ejecutar(w.copias[e.lugar], e.accion, e.quien, e.ahora).obra, o0, modo');
    } else {
      FotoTerminos(w, e, o0, modo, hs);
      MundoAbre(Siguiente(w, e, o0), o0, modo, modo');
    }
  }

  /** Copies that travel keep the terms whatever was decided. */
  lemma FotoTerminos(w: Mundo, e: Evento, o0: Obra, modo: Modo, hs: seq<Historia>)
    requires Inv(w, o0, modo, hs) && MundoTerminos(w, o0, modo) && (e.Local? ==> !Posible(w, e, o0))
    ensures MundoTerminos(Siguiente(w, e, o0), o0, modo)
  {
    if Posible(w, e, o0) {
      match e
      case Publicar(l, foto) => SelloTerminos(w.copias[l], foto, o0, modo);
      case Recibir(l, foto) =>
        FusionMantieneTerminos(w.copias[l], foto, o0, modo, hs);
        PuestaTerminos(w, l, FusionObra(w.copias[l], foto), o0, modo);
      case Adoptar(l, foto) => PuestaTerminos(w, l, foto, o0, modo);
      case Retocar(l, foto) =>
        SelloTerminos(w.copias[l], foto, o0, modo);
        PuestaTerminos(w, l, foto, o0, modo);
    }
  }

  lemma MundoAbre(w: Mundo, o0: Obra, modo: Modo, modo': Modo)
    requires MundoTerminos(w, o0, modo) && (modo' != modo ==> modo == SinDecidir)
    ensures MundoTerminos(w, o0, modo')
  {
    forall o: Obra | Terminos(o, o0, modo) ensures Terminos(o, o0, modo') {
      AbreTerminos(o, o0, modo, modo');
    }
  }

  lemma PuestaTerminos(w: Mundo, l: Lugar, r: Obra, o0: Obra, modo: Modo)
    requires MundoTerminos(w, o0, modo) && Terminos(r, o0, modo)
    ensures MundoTerminos(w.(copias := w.copias[l := r]), o0, modo)
  {
  }

  lemma {:induction false} SiempreTerminos(o0: Obra, es: seq<Evento>) returns (modo: Modo, hs: seq<Historia>)
    requires Trato(o0) && ContraPropia(o0, o0)
    ensures Inv(Tras(Inicio(o0), es, o0), o0, modo, hs) && MundoTerminos(Tras(Inicio(o0), es, o0), o0, modo)
    decreases |es|
  {
    if |es| == 0 {
      modo, hs := InicioCumple(o0);
    } else {
      var m, h := SiempreTerminos(o0, es[..|es| - 1]);
      var w, e := Tras(Inicio(o0), es[..|es| - 1], o0), es[|es| - 1];
      modo, hs := EventoConserva(w, e, o0, m, h);
      EventoTerminos(w, e, o0, m, h, modo, hs);
    }
  }

  /** In every reachable world, every copy with as many stages and the same bond as the deal
      balances: its price is that of the deal, and exactly what its stages hold. */
  lemma TodaCopiaCuadra(o0: Obra, es: seq<Evento>, c: Obra)
    requires Trato(o0) && ContraPropia(o0, o0) && Cuadra(o0) && SinMonto(o0, o0.nPartidas)
    requires Existe(Tras(Inicio(o0), es, o0), c) && c.nPartidas == o0.nPartidas && c.garantia == o0.garantia
    ensures Cuadra(c) && c.trabajo == o0.trabajo
  {
    var modo, hs := SiempreTerminos(o0, es);
    SiempreSinMonto(o0, es);
    CuadraComoElTrato(o0, modo, hs, c);
  }

  lemma CuadraComoElTrato(o0: Obra, modo: Modo, hs: seq<Historia>, c: Obra)
    requires Cuadra(o0) && SinMonto(o0, o0.nPartidas) && c.nPartidas == o0.nPartidas && c.garantia == o0.garantia
    requires Terminos(c, o0, modo) && SinMonto(c, o0.nPartidas) && CopiaBien(c, o0, modo, hs)
    ensures Cuadra(c) && c.trabajo == o0.trabajo
  {
    assert |c.partidas| == c.nPartidas;
    SumaDeIguales(c.partidas, c.garantia);
    SumaDeIguales(o0.partidas, o0.garantia);
  }

  /** A deal made from an accepted offer meets those requirements. */
  lemma DesdeOfertaCuadra(oferta: Oferta, contratista: Persona, garantia: u64, detalles: seq<string>, ahora: int)
    requires Aceptar(oferta, contratista, garantia, detalles).Ok? && oferta.mandante.id != contratista.id
    requires oferta.trabajo / garantia <= U32_MAX
    ensures var r := DesdeOferta(oferta, Aceptar(oferta, contratista, garantia, detalles).valor, ahora);
      && r.Ok? && Trato(r.valor) && Cuadra(r.valor) && ContraPropia(r.valor, r.valor)
      && SinMonto(r.valor, r.valor.nPartidas)
  {
    DesdeOfertaEsTrato(oferta, contratista, garantia, detalles, ahora);
    NuevaObraCuadra(oferta, contratista, garantia, detalles, ahora);
  }
}
