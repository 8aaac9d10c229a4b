/** Closing in every reachable world: a copy says Cerrada only when it has stages and all of
    them are paid, and then it does, unless its owner accepted a closing once more after the
    last payment. */
module CorridaCierre {
  import opened Partidas
  import opened Obras
  import opened Acuerdo
  import opened FusionObras
  import opened Acciones
  import opened Corrida

  /** The stages after an action, compared with those before it. */
  predicate MismasPagas(o: Obra, r: Obra) {
    && |r.partidas| == |o.partidas| && r.nPartidas == o.nPartidas
    && forall k :: 0 <= k < |o.partidas| ==> (r.partidas[k].estado.Pagada? <==> o.partidas[k].estado.Pagada?)
  }

  lemma MismasPagasTodas(o: Obra, r: Obra)
    requires MismasPagas(o, r)
    ensures o.TodasPagadas() <==> r.TodasPagadas()
  {
    if o.TodasPagadas() {
      forall p <- r.partidas ensures p.estado.Pagada? {
        var k :| 0 <= k < |r.partidas| && r.partidas[k] == p;
        assert o.partidas[k] in o.partidas;
      }
    }
    if r.TodasPagadas() {
      forall p <- o.partidas ensures p.estado.Pagada? {
        var k :| 0 <= k < |o.partidas| && o.partidas[k] == p;
        assert r.partidas[k] in r.partidas;
      }
    }
  }

  /** A counter offer carries as many texts as stages. */
  predicate ContraBien(o: Obra) {
    o.contra.Some? ==> |o.contra.value.detalles| == o.contra.value.nPartidas
  }

  predicate CierraBien(o: Obra) {
    CierreExacto(o) && ContraBien(o)
  }

  predicate CierraCasi(o: Obra) {
    CasiExacto(o) && ContraBien(o)
  }

  /** A request to close is accepted on a job that is closed already: the last payment closed it
      and kept the request. */
  predicate CierraDeNuevo(o: Obra, a: Accion, quien: Persona) {
    a.AceptaCierre? && o.estado == Cerrada && AceptarCierre(o, quien, 0).error.None?
  }

  // ----- one action

  predicate SinPagar(a: Accion) {
    !a.Confirma? && !a.Rechaza? && !a.Paga? && !a.AceptaExtra? && !a.AceptaCierre?
  }

  lemma SinPagarMantiene(o: Obra, a: Accion, quien: Persona, ahora: int)
    requires SinPagar(a) && Permitida(o, a)
    ensures var r := Ejecutar(o, a, quien, ahora).obra;
      && MismasPagas(o, r) && (r.estado == Cerrada <==> o.estado == Cerrada)
      && (o.estado == Abandonada ==> r.estado == Abandonada)
  {
    if a.Propone? || a.Edita? {
      PropuestaMantiene(o, a, quien, ahora);
    } else if a.Fondea? || a.Cancela? {
      RespuestaMantiene(o, a, quien, ahora);
    }
  }

  lemma PropuestaMantiene(o: Obra, a: Accion, quien: Persona, ahora: int)
    requires (a.Propone? || a.Edita?) && Permitida(o, a)
    ensures var r := Ejecutar(o, a, quien, ahora).obra;
      && MismasPagas(o, r) && (r.estado == Cerrada <==> o.estado == Cerrada)
      && (o.estado == Abandonada ==> r.estado == Abandonada)
  {
  }

  lemma RespuestaMantiene(o: Obra, a: Accion, quien: Persona, ahora: int)
    requires a.Fondea? || a.Cancela?
    ensures var r := Ejecutar(o, a, quien, ahora).obra;
      && MismasPagas(o, r) && (r.estado == Cerrada <==> o.estado == Cerrada)
      && (o.estado == Abandonada ==> r.estado == Abandonada)
  {
  }

  lemma NuevasNoPagadas(o: Obra, a: Accion, quien: Persona, ahora: int)
    requires a.Confirma? || a.Rechaza? || a.AceptaExtra?
    requires CierraCasi(o) && Permitida(o, a)
    ensures CasiExacto(Ejecutar(o, a, quien, ahora).obra)
    ensures CierreExacto(o) ==> CierreExacto(Ejecutar(o, a, quien, ahora).obra)
  {
    if a.AceptaExtra? {
      assert Ejecutar(o, a, quien, ahora) == AceptarExtra(o, quien, ahora);
      ExtraNoPagada(o, quien, ahora);
    } else {
      var r := Ejecutar(o, a, quien, ahora).obra;
      if |r.partidas| > 0 {
        assert r.partidas[|r.partidas| - 1] in r.partidas;
      }
    }
  }

  lemma ExtraNoPagada(o: Obra, quien: Persona, ahora: int)
    requires CasiExacto(o) && Permitida(o, AceptaExtra)
    ensures CasiExacto(AceptarExtra(o, quien, ahora).obra)
    ensures CierreExacto(o) ==> CierreExacto(AceptarExtra(o, quien, ahora).obra)
  {
    var r := AceptarExtra(o, quien, ahora).obra;
    if r.nPartidas > o.nPartidas {
      assert r.partidas[|r.partidas| - 1] in r.partidas;
    } else {
      assert r.partidas == o.partidas && r.estado == o.estado;
    }
  }

  lemma PagaCierra(o: Obra, a: Accion, quien: Persona, ahora: int)
    requires a.Paga? && CasiExacto(o)
    ensures CasiExacto(Ejecutar(o, a, quien, ahora).obra)
    ensures CierreExacto(o) ==> CierreExacto(Ejecutar(o, a, quien, ahora).obra)
  {
  }

  /** Accepting a closing keeps closing exact if and only if the job was not closed yet. */
  lemma AceptarCierreExactoSi(o: Obra, quien: Persona, ahora: int)
    requires CierreExacto(o) && AceptarCierre(o, quien, ahora).error.None?
    ensures CierreExacto(AceptarCierre(o, quien, ahora).obra) <==> o.estado != Cerrada
  {
    var r := AceptarCierre(o, quien, ahora).obra;
    MismasPagasTodas(o, r);
  }

  lemma AceptarCierreCasi(o: Obra, quien: Persona, ahora: int)
    requires CasiExacto(o)
    ensures CasiExacto(AceptarCierre(o, quien, ahora).obra)
  {
    MismasPagasTodas(o, AceptarCierre(o, quien, ahora).obra);
  }

  lemma AccionConservaCasi(o: Obra, a: Accion, quien: Persona, ahora: int)
    requires CierraCasi(o) && Permitida(o, a)
    ensures CierraCasi(Ejecutar(o, a, quien, ahora).obra)
  {
    AccionConservaContra(o, a, quien, ahora);
    if SinPagar(a) {
      SinPagarMantiene(o, a, quien, ahora);
      MismasPagasTodas(o, Ejecutar(o, a, quien, ahora).obra);
    } else if a.Paga? {
      PagaCierra(o, a, quien, ahora);
    } else if a.AceptaCierre? {
      AceptarCierreCasi(o, quien, ahora);
    } else {
      NuevasNoPagadas(o, a, quien, ahora);
    }
  }

  /** An action keeps closing exact if and only if it does not accept a closing on a closed
      job. */
  lemma AccionCierraBienSi(o: Obra, a: Accion, quien: Persona, ahora: int)
    requires CierraBien(o) && Permitida(o, a)
    ensures CierraBien(Ejecutar(o, a, quien, ahora).obra) <==> !CierraDeNuevo(o, a, quien)
  {
    AccionConservaContra(o, a, quien, ahora);
    if SinPagar(a) {
      SinPagarMantiene(o, a, quien, ahora);
      MismasPagasTodas(o, Ejecutar(o, a, quien, ahora).obra);
    } else if a.Paga? {
      PagaCierra(o, a, quien, ahora);
    } else if a.AceptaCierre? {
      if AceptarCierre(o, quien, ahora).error.None? {
        AceptarCierreExactoSi(o, quien, ahora);
      }
    } else {
      NuevasNoPagadas(o, a, quien, ahora);
    }
  }

  lemma AccionConservaContra(o: Obra, a: Accion, quien: Persona, ahora: int)
    requires ContraBien(o)
    ensures ContraBien(Ejecutar(o, a, quien, ahora).obra)
  {
  }

  lemma SelloConservaCierre(o: Obra, f: Obra)
    requires MismaSalvoSello(o, f)
    ensures CierraCasi(o) ==> CierraCasi(f)
    ensures CierraBien(o) ==> CierraBien(f)
  {
    assert Desnuda(o).partidas == Desnuda(f).partidas && Desnuda(o).nPartidas == Desnuda(f).nPartidas;
    assert Desnuda(o).estado == o.estado && Desnuda(f).estado == f.estado;
    forall k | 0 <= k < |o.partidas|
      ensures f.partidas[k].estado.Pagada? <==> o.partidas[k].estado.Pagada?
    {
      assert Desnuda(o).partidas[k] == SinSello(o.partidas[k]);
      assert Desnuda(f).partidas[k] == SinSello(f.partidas[k]);
    }
    MismasPagasTodas(o, f);
    assert Desnuda(o).contra == o.contra && Desnuda(f).contra == f.contra;
  }

  lemma FusionDejaBien(s: Obra, o: Obra)
    requires CierraCasi(s) && CierraCasi(o)
    ensures CierraBien(FusionObra(s, o))
  {
    FusionDejaCierreExacto(s, o);
    FusionHechos(s, o);
  }

  // ----- whole runs

  predicate MundoCasi(w: Mundo) {
    && (forall l <- w.copias :: CierraCasi(w.copias[l]))
    && (forall s <- w.sopa :: CierraCasi(s))
  }

  predicate MundoCierra(w: Mundo) {
    && (forall l <- w.copias :: CierraBien(w.copias[l]))
    && (forall s <- w.sopa :: CierraBien(s))
  }

  predicate EventoDeNuevo(w: Mundo, e: Evento, o0: Obra) {
    Posible(w, e, o0) && e.Local? && CierraDeNuevo(w.copias[e.lugar], e.accion, e.quien)
  }

  lemma EventoConservaCasi(w: Mundo, e: Evento, o0: Obra)
    requires MundoCasi(w)
    ensures MundoCasi(Siguiente(w, e, o0))
  {
    if Posible(w, e, o0) {
      match e
      case Local(l, a, quien, ahora) => AccionConservaCasi(w.copias[l], a, quien, ahora);
      case Publicar(l, foto) => SelloConservaCierre(w.copias[l], foto);
      case Recibir(l, foto) => FusionDejaBien(w.copias[l], foto);
      case Adoptar(_, _) =>
      case Retocar(l, foto) => SelloConservaCierre(w.copias[l], foto);
    }
  }

  /** A world in which every copy closes exactly stays one if and only if the event is not the
      acceptance of a closing on a closed job. */
  lemma EventoCierraBienSi(w: Mundo, e: Evento, o0: Obra)
    requires MundoCierra(w)
    ensures MundoCierra(Siguiente(w, e, o0)) <==> !EventoDeNuevo(w, e, o0)
  {
    if Posible(w, e, o0) {
      match e
      case Local(l, a, quien, ahora) =>
        AccionCierraBienSi(w.copias[l], a, quien, ahora);
        assert Siguiente(w, e, o0).copias[l] == Ejecutar(w.copias[l], a, quien, ahora).obra;
      case Publicar(l, foto) => SelloConservaCierre(w.copias[l], foto);
      case Recibir(l, foto) => FusionDejaBien(w.copias[l], foto);
      case Adoptar(_, _) =>
      case Retocar(l, foto) => SelloConservaCierre(w.copias[l], foto);
    }
  }

  lemma InicioCierra(o0: Obra)
    requires Trato(o0) && ContraBien(o0)
    ensures MundoCierra(Inicio(o0))
  {
    if |o0.partidas| > 0 {
      assert o0.partidas[0] in o0.partidas;
    }
  }

  lemma {:induction false} SiempreCasi(o0: Obra, es: seq<Evento>)
    requires Trato(o0) && ContraBien(o0)
    ensures MundoCasi(Tras(Inicio(o0), es, o0))
    decreases |es|
  {
    if |es| == 0 {
      InicioCierra(o0);
    } else {
      SiempreCasi(o0, es[..|es| - 1]);
      EventoConservaCasi(Tras(Inicio(o0), es[..|es| - 1], o0), es[|es| - 1], o0);
    }
  }

  /** After any run, on every device and in flight: a copy says Cerrada only when it has stages
      and all of them are paid; and it closes exactly if and only if it is not a fully paid job
      that was abandoned. */
  lemma TodaCopiaCierra(o0: Obra, es: seq<Evento>, c: Obra)
    requires Trato(o0) && ContraBien(o0) && Existe(Tras(Inicio(o0), es, o0), c)
    ensures |c.partidas| == c.nPartidas && (c.estado == Cerrada ==> |c.partidas| > 0 && c.TodasPagadas())
    ensures CierreExacto(c) <==> !(c.estado == Abandonada && |c.partidas| > 0 && c.TodasPagadas())
  {
    SiempreCasi(o0, es);
  }

  /** Whatever happened before, a copy that has just received another one closes exactly. */
  lemma LaQueRecibeCierraBien(o0: Obra, es: seq<Evento>, l: Lugar, foto: Obra)
    requires Trato(o0) && ContraBien(o0) && Posible(Tras(Inicio(o0), es, o0), Recibir(l, foto), o0)
    ensures CierreExacto(Siguiente(Tras(Inicio(o0), es, o0), Recibir(l, foto), o0).copias[l])
  {
    SiempreCasi(o0, es);
    FusionDejaBien(Tras(Inicio(o0), es, o0).copias[l], foto);
  }

  /** No event of the run accepts a closing on a closed job. */
  predicate SinDeNuevo(o0: Obra, es: seq<Evento>) {
    forall k :: 0 <= k < |es| ==> !EventoDeNuevo(Tras(Inicio(o0), es[..k], o0), es[k], o0)
  }

  predicate SiempreCierra(o0: Obra, es: seq<Evento>) {
    forall k :: 0 <= k <= |es| ==> MundoCierra(Tras(Inicio(o0), es[..k], o0))
  }

  lemma UnaCierraMas(o0: Obra, es: seq<Evento>, n: nat)
    requires |es| == n + 1
    ensures SiempreCierra(o0, es) <==> SiempreCierra(o0, es[..n]) && MundoCierra(Tras(Inicio(o0), es, o0))
  {
    assert forall k :: 0 <= k <= n ==> es[..k] == es[..n][..k];
    assert es[..n + 1] == es;
  }

  lemma UnoMasSinDeNuevo(o0: Obra, es: seq<Evento>, n: nat)
    requires |es| == n + 1
    ensures SinDeNuevo(o0, es) <==>
      SinDeNuevo(o0, es[..n]) && !EventoDeNuevo(Tras(Inicio(o0), es[..n], o0), es[n], o0)
  {
    assert forall k :: 0 <= k <= n ==> es[..k] == es[..n][..k];
  }

  /** Every copy closes exactly all along a run if and only if nobody accepts a closing on a
      closed job. */
  lemma {:induction false} TodaCopiaCierraBienSi(o0: Obra, es: seq<Evento>)
    requires Trato(o0) && ContraBien(o0)
    ensures SiempreCierra(o0, es) <==> SinDeNuevo(o0, es)
    decreases |es|
  {
    if |es| == 0 {
      InicioCierra(o0);
    } else {
      var n := |es| - 1;
      var fs := es[..n];
      TodaCopiaCierraBienSi(o0, fs);
      UnaCierraMas(o0, es, n);
      UnoMasSinDeNuevo(o0, es, n);
      if SiempreCierra(o0, fs) {
        assert fs[..n] == fs;
        EventoCierraBienSi(Tras(Inicio(o0), fs, o0), es[n], o0);
      }
    }
  }
}
