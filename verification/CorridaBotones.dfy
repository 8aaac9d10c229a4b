/** The action rule in whole runs: every copy that a run can reach is well formed, so every
    lit button is a move the run allows and the job accepts; and the two devices never both
    show a move for the same stage. */
module CorridaBotones {
  import opened Base
  import opened Texto
  import opened Partidas
  import opened Obras
  import opened FusionObras
  import opened FusionLimites
  import opened Acciones
  import opened Corrida
  import opened CorridaSegura
  import opened Botones

  /** A stage of a job between `m` and `c`, as the actions leave it: an open proposal names one
      of them, and there are notes exactly from EnTrato on. */
  predicate Forma(p: Partida, m: string, c: string) {
    && DeAccion(p)
    && (p.estado.Rango() < EN_TRATO <==> p.notas == [])
    && (p.estado.Encerrando? ==> p.encerradoPor.Some? && p.encerradoPor.value.id in {m, c})
    && (p.estado.EnTrato? ==> p.propuesto.Some? && p.turno.Some?)
  }

  predicate Formada(o: Obra, m: string, c: string) {
    && o.mandante.id == m && o.contratista.id == c && m != c
    && forall k :: 0 <= k < |o.partidas| ==> Forma(o.partidas[k], m, c)
  }

  lemma FormadaEsBienFormada(o: Obra, m: string, c: string)
    requires Formada(o, m, c)
    ensures BienFormada(o)
  {
    forall p <- o.partidas ensures Forma(p, m, c) {
      var k :| 0 <= k < |o.partidas| && o.partidas[k] == p;
    }
  }

  // ----- each event keeps the form

  lemma FusionConservaForma(p: Partida, o: Partida, m: string, c: string)
    requires Forma(p, m, c) && Forma(o, m, c)
    ensures Forma(Fusion(p, o), m, c)
  {
  }

  lemma FusionConservaFormada(s: Obra, o: Obra, m: string, c: string)
    requires Formada(s, m, c) && Formada(o, m, c)
    ensures Formada(FusionObra(s, o), m, c)
  {
    var r := FusionObra(s, o);
    FusionHechos(s, o);
    if r.partidas != s.partidas {
      forall k | 0 <= k < |r.partidas| ensures Forma(r.partidas[k], m, c) {
        FusionConservaForma(Celda(s.partidas, k), Celda(o.partidas, k), m, c);
      }
    }
  }

  lemma SelloConservaFormada(o: Obra, f: Obra, m: string, c: string)
    requires Formada(o, m, c) && MismaSalvoSello(o, f)
    ensures Formada(f, m, c)
  {
    assert Desnuda(o).partidas == Desnuda(f).partidas;
    assert Desnuda(o).mandante.id == o.mandante.id && Desnuda(f).mandante.id == f.mandante.id;
    assert Desnuda(o).contratista.id == o.contratista.id && Desnuda(f).contratista.id == f.contratista.id;
    forall k | 0 <= k < |f.partidas| ensures Forma(f.partidas[k], m, c) {
      assert Desnuda(o).partidas[k] == SinSello(o.partidas[k]);
      assert Desnuda(f).partidas[k] == SinSello(f.partidas[k]);
      SelloConservaForma(o.partidas[k], f.partidas[k], m, c);
    }
  }

  lemma SelloConservaForma(p: Partida, q: Partida, m: string, c: string)
    requires Forma(p, m, c) && SinSello(p) == SinSello(q)
    ensures Forma(q, m, c)
  {
    assert SinSello(p).notas == Nucleos(p.notas) && SinSello(q).notas == Nucleos(q.notas);
    assert |p.notas| == |q.notas|;
  }

  predicate DeEncierre(a: Accion) {
    a.Propone? || a.Fondea? || a.Cancela? || a.Edita?
  }

  predicate DePago(a: Accion) {
    a.Termina? || a.Contraoferta? || a.Paga?
  }

  lemma EncierreEnForma(o: Obra, a: Accion, quien: Persona, ahora: int, m: string, c: string)
    requires Formada(o, m, c) && DeEncierre(a)
    ensures Formada(Ejecutar(o, a, quien, ahora).obra, m, c)
  {
    if a.Fondea? || a.Cancela? {
      RespuestaEnForma(o, a, quien, ahora, m, c);
    } else if a.i < |o.partidas| {
      assert Forma(o.partidas[a.i], m, c);
    }
  }

  lemma RespuestaEnForma(o: Obra, a: Accion, quien: Persona, ahora: int, m: string, c: string)
    requires Formada(o, m, c) && (a.Fondea? || a.Cancela?)
    ensures Formada(Ejecutar(o, a, quien, ahora).obra, m, c)
  {
    if a.i < |o.partidas| {
      assert Forma(o.partidas[a.i], m, c);
    }
  }

  lemma PagoEnForma(o: Obra, a: Accion, quien: Persona, ahora: int, m: string, c: string)
    requires Formada(o, m, c) && DePago(a)
    ensures Formada(Ejecutar(o, a, quien, ahora).obra, m, c)
  {
    if a.Paga? {
      PagaEnForma(o, a, quien, ahora, m, c);
    } else if a.i < |o.partidas| {
      assert Forma(o.partidas[a.i], m, c);
    }
  }

  lemma PagaEnForma(o: Obra, a: Accion, quien: Persona, ahora: int, m: string, c: string)
    requires Formada(o, m, c) && a.Paga?
    ensures Formada(Ejecutar(o, a, quien, ahora).obra, m, c)
  {
    if a.i < |o.partidas| {
      assert Forma(o.partidas[a.i], m, c);
    }
  }

  lemma AccionEnObra(o: Obra, a: Accion, quien: Persona, ahora: int, m: string, c: string)
    requires Formada(o, m, c)
    requires !DeEncierre(a) && !DePago(a)
    ensures Formada(Ejecutar(o, a, quien, ahora).obra, m, c)
  {
    if a.Confirma? || a.Rechaza? {
      ContraEnForma(o, a, quien, ahora, m, c);
    }
  }

  lemma ContraEnForma(o: Obra, a: Accion, quien: Persona, ahora: int, m: string, c: string)
    requires Formada(o, m, c) && (a.Confirma? || a.Rechaza?)
    ensures Formada(Ejecutar(o, a, quien, ahora).obra, m, c)
  {
  }

  lemma AccionEnForma(o: Obra, a: Accion, quien: Persona, ahora: int, m: string, c: string)
    requires Formada(o, m, c)
    ensures Formada(Ejecutar(o, a, quien, ahora).obra, m, c)
  {
    if DeEncierre(a) {
      EncierreEnForma(o, a, quien, ahora, m, c);
    } else if DePago(a) {
      PagoEnForma(o, a, quien, ahora, m, c);
    } else {
      AccionEnObra(o, a, quien, ahora, m, c);
    }
  }

  predicate MundoFormado(w: Mundo, o0: Obra) {
    && (forall l <- w.copias :: Formada(w.copias[l], o0.mandante.id, o0.contratista.id))
    && (forall s <- w.sopa :: Formada(s, o0.mandante.id, o0.contratista.id))
  }

  lemma EventoConservaForma(w: Mundo, e: Evento, o0: Obra)
    requires MundoFormado(w, o0)
    ensures MundoFormado(Siguiente(w, e, o0), o0)
  {
    var m, c := o0.mandante.id, o0.contratista.id;
    if Posible(w, e, o0) {
      match e
      case Local(l, a, quien, ahora) =>
        AccionEnForma(w.copias[l], a, quien, ahora, m, c);
      case Publicar(l, foto) => SelloConservaFormada(w.copias[l], foto, m, c);
      case Recibir(l, foto) => FusionConservaFormada(w.copias[l], foto, m, c);
      case Adoptar(_, _) =>
      case Retocar(l, foto) => SelloConservaFormada(w.copias[l], foto, m, c);
    }
  }

  /** Every copy of every stage, base or extra, in every reachable world is well formed. */
  lemma {:induction false} SiempreBienFormada(o0: Obra, es: seq<Evento>)
    requires Trato(o0)
    ensures MundoFormado(Tras(Inicio(o0), es, o0), o0)
    ensures forall c :: Existe(Tras(Inicio(o0), es, o0), c) ==> BienFormada(c)
    decreases |es|
  {
    if |es| == 0 {
    } else {
      SiempreBienFormada(o0, es[..|es| - 1]);
      EventoConservaForma(Tras(Inicio(o0), es[..|es| - 1], o0), es[|es| - 1], o0);
    }
    forall c | Existe(Tras(Inicio(o0), es, o0), c) ensures BienFormada(c) {
      FormadaEsBienFormada(c, o0.mandante.id, o0.contratista.id);
    }
  }

  // ----- the buttons of a run

  /** The run allows the action, and the job accepts it. */
  predicate Acepta(w: Mundo, o0: Obra, l: Lugar, a: Accion, quien: Persona, ahora: int) {
    && Posible(w, Local(l, a, quien, ahora), o0)
    && Ejecutar(w.copias[l], a, quien, ahora).error.None?
  }

  /** Whatever happened before, a button that is lit on someone's device does what it says. */
  lemma BotonesEnTodaCorrida(o0: Obra, es: seq<Evento>, l: Lugar, i: nat, quien: Persona, lineas: seq<Aviso>,
                             traba: Traba, ultima: Option<Cotizacion>, pct: u32, nota: string, texto: string,
                             ahora: int)
    requires Trato(o0) && 1 <= pct <= 100 && LimpiaNota(nota).Ok?
    requires l in Tras(Inicio(o0), es, o0).copias && Dueno(o0, l) == Some(quien.id)
    ensures var w := Tras(Inicio(o0), es, o0);
      var b := BotoneraDe(w.copias[l], i, quien.id, lineas, traba);
      && (b.proponerEncierre && PrecioParaEncerrar(w.copias[l], i, ultima, ahora).Ok? ==>
            Acepta(w, o0, l, Propone(i, PrecioParaEncerrar(w.copias[l], i, ultima, ahora).valor), quien, ahora))
      && (b.editarTexto ==> Acepta(w, o0, l, Edita(i, texto), quien, ahora))
      && (b.cancelarPropuesta || b.noEncerrar ==> Acepta(w, o0, l, Cancela(i), quien, ahora))
      && (b.confirmarFondeo ==> Acepta(w, o0, l, Fondea(i), quien, ahora))
      && (b.avisarTermino ==> Acepta(w, o0, l, Termina(i, pct, nota), quien, ahora))
      && (b.aceptarPago ==> Acepta(w, o0, l, Paga(i), quien, ahora))
      && (b.contraofertar && w.copias[l].partidas[i].propuesto != Some(pct) ==>
            Acepta(w, o0, l, Contraoferta(i, pct, nota), quien, ahora))
  {
    var w := Tras(Inicio(o0), es, o0);
    var o := w.copias[l];
    SiempreBienFormada(o0, es);
    assert Existe(w, o);
    BotonesDelEncierre(o, i, quien, lineas, traba, ultima, texto, ahora);
    BotonesDelPago(o, i, quien, lineas, traba, pct, nota, ahora);
  }

  /** A lit button that moves the negotiation. */
  predicate Mueve(b: Botonera) {
    b.avisarTermino || b.aceptarPago || b.contraofertar
  }

  /** The move behind it, with some percentage that was not just proposed. */
  function JugadaDe(b: Botonera, p: Partida, k: nat): Accion {
    if b.avisarTermino then Termina(k, 1, "")
    else if b.aceptarPago then Paga(k)
    else Contraoferta(k, if p.propuesto == Some(1) then 2 else 1, "")
  }

  lemma MueveJuega(o0: Obra, es: seq<Evento>, l: Lugar, k: nat, quien: Persona, lineas: seq<Aviso>, traba: Traba)
    requires Trato(o0) && l in Tras(Inicio(o0), es, o0).copias && Dueno(o0, l) == Some(quien.id)
    requires Mueve(BotoneraDe(Tras(Inicio(o0), es, o0).copias[l], k, quien.id, lineas, traba))
    ensures var w := Tras(Inicio(o0), es, o0);
      var b := BotoneraDe(w.copias[l], k, quien.id, lineas, traba);
      && k < |w.copias[l].partidas|
      && Juega(w, o0, l, k, JugadaDe(b, w.copias[l].partidas[k], k), quien, 0)
  {
    var o := Tras(Inicio(o0), es, o0).copias[l];
    assert LimpiaNota("") == Ok("");
    var pct: u32 := if k < |o.partidas| && o.partidas[k].propuesto == Some(1) then 2 else 1;
    BotonesEnTodaCorrida(o0, es, l, k, quien, lineas, traba, None, pct, "", "", 0);
    BotonesEnTodaCorrida(o0, es, l, k, quien, lineas, traba, None, 1, "", "", 0);
  }

  /** Across the two devices, with whatever copies and notices each of them has: never do both
      show a move for the same stage, and neither does once any copy anywhere is paid. */
  lemma UnSoloEquipoMueve(o0: Obra, es: seq<Evento>, k: nat, m: Persona, c: Persona,
                          mLineas: seq<Aviso>, mTraba: Traba, cLineas: seq<Aviso>, cTraba: Traba, visto: Obra)
    requires Trato(o0) && k < o0.nPartidas && m.id == o0.mandante.id && c.id == o0.contratista.id
    requires DeMandante in Tras(Inicio(o0), es, o0).copias && DeContratista in Tras(Inicio(o0), es, o0).copias
    ensures var w := Tras(Inicio(o0), es, o0);
      var mb := BotoneraDe(w.copias[DeMandante], k, m.id, mLineas, mTraba);
      var cb := BotoneraDe(w.copias[DeContratista], k, c.id, cLineas, cTraba);
      && !(Mueve(mb) && Mueve(cb))
      && (Existe(w, visto) && k < |visto.partidas| && visto.partidas[k].estado.Pagada? ==> !Mueve(mb) && !Mueve(cb))
  {
    var w := Tras(Inicio(o0), es, o0);
    var mo, co := w.copias[DeMandante], w.copias[DeContratista];
    var mb := BotoneraDe(mo, k, m.id, mLineas, mTraba);
    var cb := BotoneraDe(co, k, c.id, cLineas, cTraba);
    var a := JugadaDe(mb, Celda(mo.partidas, k), k);
    var b := JugadaDe(cb, Celda(co.partidas, k), k);
    if Mueve(mb) {
      MueveJuega(o0, es, DeMandante, k, m, mLineas, mTraba);
    }
    if Mueve(cb) {
      MueveJuega(o0, es, DeContratista, k, c, cLineas, cTraba);
    }
    UnoSoloJuega(o0, es, k, a, m, 0, b, c, 0, visto);
  }
}
