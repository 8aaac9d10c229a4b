/** A run that ends in a fully paid job that says Abandonada: one person asks to close the deal
    while the last stage waits for its payment, the other pays and then accepts. */
module CorridaEjemplo {
  import opened Base
  import opened Texto
  import opened Precio
  import opened Partidas
  import opened Obras
  import opened Acuerdo
  import opened FusionObras
  import opened Acciones
  import opened Corrida
  import opened CorridaCierre

  /** A deal of one stage. */
  function DeUna(m: Persona, c: Persona): Obra {
    Obra.Obra("", "", 2, 2, 2, 1, m, c, Acordada, [Nueva("", 0)], None, None, 0, 0, None, 0, Unidades)
  }

  // ----- the copies of the run

  /** The principal proposes the lock. */
  function Propuesta1(m: Persona, c: Persona): Obra {
    EncerrarProponer(DeUna(m, c), 0, m, None, 0).obra
  }

  /** The contractor gets it, funds it, finishes, and asks to close the deal. */
  function Fondeada(m: Persona, c: Persona): Obra {
    EncerrarConfirmar(FusionObra(DeUna(m, c), Propuesta1(m, c)), 0, c, 0).obra
  }

  function Avisada(m: Persona, c: Persona): Obra {
    AvisarTermino(Fondeada(m, c), 0, c, 100, "", 0).obra
  }

  function Pedida(m: Persona, c: Persona): Obra {
    Abandonar(Avisada(m, c), c, 0).obra
  }

  /** The principal gets that, pays, and accepts the closing. */
  function Recibida(m: Persona, c: Persona): Obra {
    FusionObra(Propuesta1(m, c), Pedida(m, c))
  }

  function Pagada1(m: Persona, c: Persona): Obra {
    AceptarPago(Recibida(m, c), 0, m, 0).obra
  }

  function Final(m: Persona, c: Persona): Obra {
    AceptarCierre(Pagada1(m, c), m, 0).obra
  }

  /** People, one stage and its state. */
  predicate Es(o: Obra, m: Persona, c: Persona, estado: EstadoObra, e: EstadoPartida) {
    && o.mandante.id == m.id && o.contratista.id == c.id && o.moneda.Unidades?
    && |o.partidas| == o.nPartidas == 1 && o.estado == estado && o.partidas[0].estado == e
  }

  lemma HastaRecibirla(m: Persona, c: Persona)
    requires m.id != c.id
    ensures EncerrarProponer(DeUna(m, c), 0, m, None, 0).error.None?
    ensures var x := Propuesta1(m, c);
      Es(x, m, c, EnMarcha, Encerrando) && x.cierre.None? && x.cierreSeq == 0 && SinTrato(x.partidas[0])
    ensures var r := FusionObra(DeUna(m, c), Propuesta1(m, c));
      Es(r, m, c, EnMarcha, Encerrando) && r.cierre.None? && r.cierreSeq == 0
      && r.partidas[0].encerradoPor == Some(m)
  {
    FusionPropuesta(DeUna(m, c), Propuesta1(m, c), m, c);
  }

  lemma FusionPropuesta(o: Obra, x: Obra, m: Persona, c: Persona)
    requires Es(o, m, c, Acordada, Pendiente) && o.cierre.None? && o.cierreSeq == 0 && o.partidas[0].encerrarSeq == 0
    requires Es(x, m, c, EnMarcha, Encerrando) && x.cierreSeq == 0 && x.partidas[0].encerradoPor == Some(m)
    requires x.partidas[0].encerrarSeq == 1
    ensures var r := FusionObra(o, x);
      Es(r, m, c, EnMarcha, Encerrando) && r.cierre.None? && r.cierreSeq == 0
      && r.partidas[0].encerradoPor == Some(m)
  {
    var r := FusionObra(o, x);
    FusionHechos(o, x);
    FusionObraNoRetrocede(o, x);
    assert r.partidas[0] == Fusion(o.partidas[0], x.partidas[0]);
    assert r.partidas[0].estado.Encerrando? && r.partidas[0].encerradoPor == Some(m);
    assert r.partidas[0] in r.partidas && !r.TodasPagadas();
  }

  lemma HastaPedida(m: Persona, c: Persona)
    requires m.id != c.id
    ensures EncerrarConfirmar(FusionObra(DeUna(m, c), Propuesta1(m, c)), 0, c, 0).error.None?
    ensures AvisarTermino(Fondeada(m, c), 0, c, 100, "", 0).error.None?
    ensures Abandonar(Avisada(m, c), c, 0).error.None?
    ensures var y := Pedida(m, c);
      Es(y, m, c, EnMarcha, EnTrato) && y.cierre == Some(c) && y.cierreSeq == 1
      && y.partidas[0].turno == Some(Mandante) && y.partidas[0].propuesto.Some? && |y.partidas[0].notas| > 0
  {
    HastaRecibirla(m, c);
    Contratado(FusionObra(DeUna(m, c), Propuesta1(m, c)), m, c);
  }

  /** What the contractor does, on the copy it got. */
  lemma Contratado(r: Obra, m: Persona, c: Persona)
    requires m.id != c.id && Es(r, m, c, EnMarcha, Encerrando) && r.cierre.None? && r.cierreSeq == 0
    requires r.partidas[0].encerradoPor == Some(m)
    ensures var f := EncerrarConfirmar(r, 0, c, 0);
      var a := AvisarTermino(f.obra, 0, c, 100, "", 0);
      var y := Abandonar(a.obra, c, 0);
      && f.error.None? && a.error.None? && y.error.None?
      && Es(y.obra, m, c, EnMarcha, EnTrato) && y.obra.cierre == Some(c) && y.obra.cierreSeq == 1
      && y.obra.partidas[0].turno == Some(Mandante) && y.obra.partidas[0].propuesto.Some?
      && |y.obra.partidas[0].notas| > 0
  {
    assert LimpiaNota("") == Ok("");
    var a := AvisarTermino(EncerrarConfirmar(r, 0, c, 0).obra, 0, c, 100, "", 0).obra;
    assert a.partidas[0] in a.partidas;
  }

  lemma HastaRecibida(m: Persona, c: Persona)
    requires m.id != c.id
    ensures var r := Recibida(m, c);
      Es(r, m, c, EnMarcha, EnTrato) && r.cierre == Some(c)
      && r.partidas[0].turno == Some(Mandante) && r.partidas[0].propuesto.Some?
  {
    HastaRecibirla(m, c);
    HastaPedida(m, c);
    FusionPedida(Propuesta1(m, c), Pedida(m, c), m, c);
  }

  lemma FusionPedida(x: Obra, y: Obra, m: Persona, c: Persona)
    requires Es(x, m, c, EnMarcha, Encerrando) && x.cierre.None? && x.cierreSeq == 0 && SinTrato(x.partidas[0])
    requires Es(y, m, c, EnMarcha, EnTrato) && y.cierre == Some(c) && y.cierreSeq == 1
    requires y.partidas[0].turno == Some(Mandante) && y.partidas[0].propuesto.Some? && |y.partidas[0].notas| > 0
    ensures var r := FusionObra(x, y);
      Es(r, m, c, EnMarcha, EnTrato) && r.cierre == Some(c)
      && r.partidas[0].turno == Some(Mandante) && r.partidas[0].propuesto.Some?
  {
    FusionHechos(x, y);
    FusionNoPagada(x.partidas[0], y.partidas[0]);
    var r := FusionObra(x, y);
    assert r.partidas[0] == Fusion(x.partidas[0], y.partidas[0]);
    assert r.partidas[0] in r.partidas && !r.TodasPagadas();
    CierreLlega(x, y);
  }

  lemma FusionNoPagada(p: Partida, q: Partida)
    requires p.estado.Encerrando? && q.estado.EnTrato? && SinTrato(p) && |q.notas| > 0
    ensures var r := Fusion(p, q);
      r.estado.EnTrato? && r.turno == q.turno && r.propuesto == q.propuesto
  {
  }

  /** A newer request to close arrives with the copy that has it. */
  lemma CierreLlega(x: Obra, y: Obra)
    requires x.estado == y.estado == EnMarcha && y.cierreSeq > x.cierreSeq
    ensures FusionObra(x, y).cierre == y.cierre
  {
    var k := FusionCuerpo(FusionClaves(x, y), y);
    CuerpoHechos(FusionClaves(x, y), y);
    ExtraHechos(k, y);
    EstadoHechos(FusionCierre(FusionExtra(k, y), y), y);
  }

  /** The job says Abandonada with its only stage paid. */
  lemma HastaFinal(m: Persona, c: Persona)
    requires m.id != c.id
    ensures AceptarPago(Recibida(m, c), 0, m, 0).error.None?
    ensures AceptarCierre(Pagada1(m, c), m, 0).error.None?
    ensures Final(m, c).estado == Abandonada && !CierreExacto(Final(m, c))
  {
    HastaRecibida(m, c);
    Mandado(Recibida(m, c), m, c);
  }

  /** What the principal does, on the copy it got. */
  lemma Mandado(r: Obra, m: Persona, c: Persona)
    requires m.id != c.id && Es(r, m, c, EnMarcha, EnTrato) && r.cierre == Some(c)
    requires r.partidas[0].turno == Some(Mandante) && r.partidas[0].propuesto.Some?
    ensures var p := AceptarPago(r, 0, m, 0);
      var z := AceptarCierre(p.obra, m, 0);
      p.error.None? && z.error.None? && z.obra.estado == Abandonada && !CierreExacto(z.obra)
  {
    PagarYAceptar(r, 0, m, 0, 0);
  }

  /** On any job: if the payment of the last stage finds a closing that the other person asked
      for, the payer can accept it afterwards, and then the job does not close exactly. */
  lemma PagarYAceptar(o: Obra, i: nat, quien: Persona, t: int, u: int)
    requires Contada(o) && AceptarPago(o, i, quien, t).error.None? && AceptarPago(o, i, quien, t).obra.TodasPagadas()
    requires o.cierre.Some? && o.cierre.value.id != quien.id
    ensures var r := AceptarPago(o, i, quien, t).obra;
      && CierreExacto(r) && r.estado == Cerrada && CierraDeNuevo(r, AceptaCierre, quien)
      && AceptarCierre(r, quien, u).error.None? && AceptarCierre(r, quien, u).obra.estado == Abandonada
      && !CierreExacto(AceptarCierre(r, quien, u).obra)
  {
    AceptarCierreExactoSi(AceptarPago(o, i, quien, t).obra, quien, u);
  }

  // ----- the events

  /** Some run of the deal `o0` ends in this world. */
  ghost predicate Alcanzable(o0: Obra, w: Mundo) {
    exists es: seq<Evento> :: Tras(Inicio(o0), es, o0) == w
  }

  lemma AlcanzableAlPrincipio(o0: Obra)
    ensures Alcanzable(o0, Inicio(o0))
  {
    assert Tras(Inicio(o0), [], o0) == Inicio(o0);
  }

  lemma UnEventoMas(o0: Obra, w: Mundo, e: Evento)
    requires Alcanzable(o0, w)
    ensures Alcanzable(o0, Siguiente(w, e, o0))
  {
    var es: seq<Evento> :| Tras(Inicio(o0), es, o0) == w;
    assert (es + [e])[..|es + [e]| - 1] == es;
    assert Tras(Inicio(o0), es + [e], o0) == Siguiente(w, e, o0);
  }

  /** The copies of the contractor and of the principal, and what is in flight. */
  function Dos(y: Obra, x: Obra, sopa: set<Obra>): Mundo {
    Mundo(map[DeContratista := y, DeMandante := x], sopa)
  }

  lemma ActuaContratista(o0: Obra, y: Obra, x: Obra, sopa: set<Obra>, a: Accion, c: Persona, r: Obra)
    requires Alcanzable(o0, Dos(y, x, sopa)) && c.id == o0.contratista.id && Permitida(y, a)
    requires r == Ejecutar(y, a, c, 0).obra
    ensures Alcanzable(o0, Dos(r, x, sopa))
  {
    UnEventoMas(o0, Dos(y, x, sopa), Local(DeContratista, a, c, 0));
    assert Dos(y, x, sopa).copias[DeContratista := r] == Dos(r, x, sopa).copias;
  }

  lemma ActuaMandante(o0: Obra, y: Obra, x: Obra, sopa: set<Obra>, a: Accion, m: Persona, r: Obra)
    requires Alcanzable(o0, Dos(y, x, sopa)) && m.id == o0.mandante.id && Permitida(x, a)
    requires r == Ejecutar(x, a, m, 0).obra
    ensures Alcanzable(o0, Dos(y, r, sopa))
  {
    UnEventoMas(o0, Dos(y, x, sopa), Local(DeMandante, a, m, 0));
    assert Dos(y, x, sopa).copias[DeMandante := r] == Dos(y, r, sopa).copias;
  }

  lemma Adopta(o: Obra)
    ensures Alcanzable(o, Dos(o, o, {o}))
  {
    AlcanzableAlPrincipio(o);
    UnEventoMas(o, Inicio(o), Adoptar(DeMandante, o));
    assert Inicio(o).copias[DeMandante := o] == Dos(o, o, {o}).copias;
  }

  lemma MandaMandante(o0: Obra, y: Obra, x: Obra, sopa: set<Obra>, r: Obra)
    requires Alcanzable(o0, Dos(y, x, sopa)) && r == FusionObra(y, x)
    ensures Alcanzable(o0, Dos(r, x, sopa + {x}))
  {
    UnEventoMas(o0, Dos(y, x, sopa), Publicar(DeMandante, x));
    UnEventoMas(o0, Dos(y, x, sopa + {x}), Recibir(DeContratista, x));
    assert Dos(y, x, sopa + {x}).copias[DeContratista := r] == Dos(r, x, sopa + {x}).copias;
  }

  lemma MandaContratista(o0: Obra, y: Obra, x: Obra, sopa: set<Obra>, r: Obra)
    requires Alcanzable(o0, Dos(y, x, sopa)) && r == FusionObra(x, y)
    ensures Alcanzable(o0, Dos(y, r, sopa + {y}))
  {
    UnEventoMas(o0, Dos(y, x, sopa), Publicar(DeContratista, y));
    UnEventoMas(o0, Dos(y, x, sopa + {y}), Recibir(DeMandante, y));
    assert Dos(y, x, sopa + {y}).copias[DeMandante := r] == Dos(y, r, sopa + {y}).copias;
  }

  /** The principal takes the deal and proposes the lock; the contractor gets it. */
  lemma LaIda(o: Obra, x: Obra, r: Obra, m: Persona)
    requires m.id == o.mandante.id && o.estado == Acordada && x == EncerrarProponer(o, 0, m, None, 0).obra
    requires r == FusionObra(o, x)
    ensures Alcanzable(o, Dos(r, x, {o} + {x}))
  {
    Adopta(o);
    ActuaMandante(o, o, o, {o}, Propone(0, None), m, x);
    MandaMandante(o, o, x, {o}, r);
  }

  /** The contractor funds, finishes and asks to close the deal; the principal gets that. */
  lemma ElTrabajo(o: Obra, x: Obra, sopa: set<Obra>, r: Obra, f: Obra, a: Obra, y: Obra, c: Persona)
    requires c.id == o.contratista.id && Alcanzable(o, Dos(r, x, sopa))
    requires f == EncerrarConfirmar(r, 0, c, 0).obra && a == AvisarTermino(f, 0, c, 100, "", 0).obra
    requires y == Abandonar(a, c, 0).obra
    ensures Alcanzable(o, Dos(y, x, sopa))
  {
    ActuaContratista(o, r, x, sopa, Fondea(0), c, f);
    ActuaContratista(o, f, x, sopa, Termina(0, 100, ""), c, a);
    ActuaContratista(o, a, x, sopa, Abandona, c, y);
  }

  /** The principal pays, and accepts the closing. */
  lemma LaVuelta(o: Obra, y: Obra, sopa: set<Obra>, r: Obra, p: Obra, z: Obra, m: Persona)
    requires m.id == o.mandante.id && Alcanzable(o, Dos(y, r, sopa))
    requires p == AceptarPago(r, 0, m, 0).obra && z == AceptarCierre(p, m, 0).obra
    ensures Alcanzable(o, Dos(y, z, sopa))
  {
    ActuaMandante(o, y, r, sopa, Paga(0), m, p);
    ActuaMandante(o, y, p, sopa, AceptaCierre, m, z);
  }

  /** The run: it starts as any deal does, and the principal's copy ends as a fully paid job that
      says Abandonada. */
  lemma UnaPagadaAbandonada(m: Persona, c: Persona)
    requires m.id != c.id
    ensures Trato(DeUna(m, c)) && ContraBien(DeUna(m, c))
    ensures exists w: Mundo :: Alcanzable(DeUna(m, c), w) && PagadaAbandonada(w)
  {
    var o, x, y, z := DeUna(m, c), Propuesta1(m, c), Pedida(m, c), Final(m, c);
    var sopa := {o} + {x};
    LaIda(o, x, FusionObra(o, x), m);
    ElTrabajo(o, x, sopa, FusionObra(o, x), Fondeada(m, c), Avisada(m, c), y, c);
    MandaContratista(o, y, x, sopa, Recibida(m, c));
    LaVuelta(o, y, sopa + {y}, Recibida(m, c), Pagada1(m, c), z, m);
    HastaFinal(m, c);
    assert PagadaAbandonada(Dos(y, z, sopa + {y}));
  }

  /** The principal's copy is abandoned and does not close exactly. */
  predicate PagadaAbandonada(w: Mundo) {
    DeMandante in w.copias && w.copias[DeMandante].estado == Abandonada && !CierreExacto(w.copias[DeMandante])
  }
}
