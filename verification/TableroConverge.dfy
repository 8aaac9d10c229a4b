/** Strong eventual consistency of the board: what is on show depends only on which offers
    and tombstones were delivered, not on their order, batching or repetition. */
module TableroConverge {
  import opened Obras
  import opened Tablero

  function Tras(h: Huella, es: seq<Entrega>): Estado {
    if |es| == 0 then Estado([], []) else Recibir(h, Tras(h, es[..|es| - 1]), es[|es| - 1])
  }

  function EnVista(h: Huella, es: seq<Entrega>): seq<Oferta> {
    SinRetiradas(h, Tras(h, es).tablero, Tras(h, es).retiradas)
  }

  // ----- what was delivered

  function OfertasDe(es: seq<Entrega>): set<Oferta> {
    if |es| == 0 then {}
    else OfertasDe(es[..|es| - 1]) + (if es[|es| - 1].Ofertas? then Conjunto(es[|es| - 1].os) else {})
  }

  function Validos(rs: seq<Retiro>): set<Retiro> {
    set r | r in rs && ConIds(r)
  }

  function RetirosDe(es: seq<Entrega>): set<Retiro> {
    if |es| == 0 then {}
    else RetirosDe(es[..|es| - 1]) + (if es[|es| - 1].Retiros? then Validos(es[|es| - 1].rs) else {})
  }

  // ----- tombstones, while they fit

  function Clave(r: Retiro): (string, string, string) {
    (r.ofertaId, r.autorId, r.prueba)
  }

  function Claves(rs: set<Retiro>): set<(string, string, string)> {
    set r | r in rs :: Clave(r)
  }

  /** The list `a` holds one tombstone for each key delivered in `rs`. */
  predicate Recuerda(a: seq<Retiro>, rs: set<Retiro>) {
    Conjunto(a) <= rs && Claves(Conjunto(a)) == Claves(rs) && |a| == |Claves(rs)|
  }

  lemma PonerRecuerda(a: seq<Retiro>, rs: set<Retiro>, r: Retiro)
    requires Recuerda(a, rs)
    ensures Recuerda(PonerRetiro(a, r), if ConIds(r) then rs + {r} else rs)
  {
    if ConIds(r) {
      assert Claves(rs + {r}) == Claves(rs) + {Clave(r)};
      if exists x <- a :: MismaClave(x, r) {
        var x :| x in a && MismaClave(x, r);
        assert x in Conjunto(a) && Clave(x) == Clave(r) && Clave(x) in Claves(Conjunto(a));
      } else {
        assert Clave(r) !in Claves(Conjunto(a));
        assert Conjunto(a + [r]) == Conjunto(a) + {r};
        assert Claves(Conjunto(a) + {r}) == Claves(Conjunto(a)) + {Clave(r)};
      }
    }
  }

  lemma {:induction false} PonerTodosRecuerda(a: seq<Retiro>, rs: set<Retiro>, b: seq<Retiro>)
    requires Recuerda(a, rs)
    ensures Recuerda(PonerRetiros(a, b), rs + Validos(b))
    decreases |b|
  {
    if |b| == 0 {
      assert rs + Validos(b) == rs;
    } else {
      var c, r := b[..|b| - 1], b[|b| - 1];
      PonerTodosRecuerda(a, rs, c);
      PonerRecuerda(PonerRetiros(a, c), rs + Validos(c), r);
      assert b == c + [r];
      assert rs + Validos(b) == if ConIds(r) then rs + Validos(c) + {r} else rs + Validos(c);
    }
  }

  lemma PermutaConjunto(a: seq<Retiro>, b: seq<Retiro>)
    requires multiset(a) == multiset(b)
    ensures Conjunto(a) == Conjunto(b) && |a| == |b|
  {
    assert forall x :: x in a <==> x in multiset(a);
    assert forall x :: x in b <==> x in multiset(b);
    assert |a| == |multiset(a)| && |b| == |multiset(b)|;
  }

  lemma MasNuevosRecuerda(a: seq<Retiro>, rs: set<Retiro>, b: seq<Retiro>)
    requires Recuerda(a, rs) && |Claves(rs + Validos(b))| <= MAX_RETIRADAS
    ensures Recuerda(MasNuevos(a, b), rs + Validos(b))
  {
    PonerTodosRecuerda(a, rs, b);
    OrdenarOrdena(PonerRetiros(a, b));
    PermutaConjunto(Ordenar(PonerRetiros(a, b)), PonerRetiros(a, b));
  }

  /** Keys decide what a tombstone kills. */
  lemma MuertaPorClave(h: Huella, rs: set<Retiro>, ss: set<Retiro>, o: Oferta)
    requires Claves(rs) == Claves(ss)
    ensures Muerta(h, rs, o) <==> Muerta(h, ss, o)
  {
    if Muerta(h, rs, o) {
      var r :| r in rs && ValePara(h, r, o);
      assert Clave(r) in Claves(ss);
    }
    if Muerta(h, ss, o) {
      var r :| r in ss && ValePara(h, r, o);
      assert Clave(r) in Claves(rs);
    }
  }

  // ----- offers

  /** Copies of one offer agree on its author, and on its commitment when they carry it. */
  predicate Acordes(d: set<Oferta>) {
    forall a <- d, b <- d :: a.id == b.id ==>
      && a.mandante.id == b.mandante.id
      && (a.retiroHash != "" && b.retiroHash != "" ==> a.retiroHash == b.retiroHash)
  }

  /** A best delivered copy: one with the commitment, if any copy of the offer has it. */
  predicate Mejor(d: set<Oferta>, o: Oferta) {
    o in d && (o.retiroHash == "" ==> forall c <- d :: c.id == o.id ==> c.retiroHash == "")
  }

  predicate Distintas(t: seq<Oferta>) {
    forall i, j :: 0 <= i < j < |t| ==> t[i].id != t[j].id
  }

  predicate Presente(t: seq<Oferta>, id: string) {
    exists k :: 0 <= k < |t| && t[k].id == id
  }

  /** A copy on the board that is not a best one only stays because the offer is withdrawn. */
  predicate Justificada(h: Huella, d: set<Oferta>, rs: set<Retiro>, o: Oferta) {
    o in d && (o.retiroHash == "" ==> forall c <- d :: c.id == o.id && c.retiroHash != "" ==> Muerta(h, rs, c))
  }

  predicate Bien(h: Huella, d: set<Oferta>, rs: set<Retiro>, t: seq<Oferta>) {
    && Distintas(t)
    && (forall k :: 0 <= k < |t| ==> Justificada(h, d, rs, t[k]))
    && (forall c <- d :: Mejor(d, c) && !Muerta(h, rs, c) ==> Presente(t, c.id))
  }

  /** Best copies of one offer are withdrawn together. */
  lemma MejoresMuerenJuntas(h: Huella, d: set<Oferta>, rs: set<Retiro>, a: Oferta, b: Oferta)
    requires Acordes(d) && Mejor(d, a) && Mejor(d, b) && a.id == b.id
    ensures a.retiroHash == b.retiroHash
    ensures Muerta(h, rs, a) <==> Muerta(h, rs, b)
  {
    assert a.retiroHash == b.retiroHash && a.mandante.id == b.mandante.id;
    assert forall r :: ValePara(h, r, a) <==> ValePara(h, r, b);
  }

  lemma PonerBien(h: Huella, d: set<Oferta>, rs: set<Retiro>, t: seq<Oferta>, o: Oferta)
    requires Acordes(d + {o}) && Bien(h, d, rs, t)
    ensures Bien(h, d + {o}, rs, PonerOferta(t, o))
  {
    var u := PonerOferta(t, o);
    PonerJustifica(h, d, rs, t, o);
    PonerPresente(h, d, rs, t, o);
    assert Distintas(u);
  }

  lemma PonerJustifica(h: Huella, d: set<Oferta>, rs: set<Retiro>, t: seq<Oferta>, o: Oferta)
    requires Acordes(d + {o}) && Bien(h, d, rs, t)
    ensures var u := PonerOferta(t, o);
      forall i :: 0 <= i < |u| ==> Justificada(h, d + {o}, rs, u[i])
  {
    var e, u, k := d + {o}, PonerOferta(t, o), IndiceDe(t, o.id);
    assert forall i :: 0 <= i < |t| && t[i].id != o.id ==> Justificada(h, e, rs, t[i]);
    if k < |t| {
      assert forall i :: 0 <= i < |t| && i != k ==> t[i].id != o.id;
      assert Justificada(h, d, rs, t[k]);
      assert Justificada(h, e, rs, u[k]);
    } else if o.retiroHash == "" {
      forall c <- e | c.id == o.id && c.retiroHash != "" ensures Muerta(h, rs, c) {
        assert Mejor(d, c) && !Presente(t, c.id);
      }
    }
  }

  lemma PonerPresente(h: Huella, d: set<Oferta>, rs: set<Retiro>, t: seq<Oferta>, o: Oferta)
    requires forall c <- d :: Mejor(d, c) && !Muerta(h, rs, c) ==> Presente(t, c.id)
    ensures forall c <- d + {o} :: Mejor(d + {o}, c) && !Muerta(h, rs, c) ==> Presente(PonerOferta(t, o), c.id)
  {
    var u, k := PonerOferta(t, o), IndiceDe(t, o.id);
    assert u[if k < |t| then k else |t|].id == o.id;
    forall c <- d + {o} | Mejor(d + {o}, c) && !Muerta(h, rs, c) && c.id != o.id ensures Presente(u, c.id) {
      assert Mejor(d, c);
      var i :| 0 <= i < |t| && t[i].id == c.id;
      assert u[i].id == c.id;
    }
  }

  lemma {:induction false} PonerTodasBien(h: Huella, d: set<Oferta>, rs: set<Retiro>, t: seq<Oferta>, os: seq<Oferta>)
    requires Acordes(d + Conjunto(os)) && Bien(h, d, rs, t)
    ensures Bien(h, d + Conjunto(os), rs, PonerOfertas(t, os))
    decreases |os|
  {
    if |os| == 0 {
      assert d + Conjunto(os) == d;
    } else {
      var ps, o := os[..|os| - 1], os[|os| - 1];
      assert os == ps + [o];
      assert d + Conjunto(os) == d + Conjunto(ps) + {o};
      PonerTodasBien(h, d, rs, t, ps);
      PonerBien(h, d + Conjunto(ps), rs, PonerOfertas(t, ps), o);
    }
  }

  /** Filtering keeps exactly best, living copies. */
  lemma FiltroBien(h: Huella, d: set<Oferta>, rs: set<Retiro>, t: seq<Oferta>, guardados: seq<Retiro>)
    requires Acordes(d) && Bien(h, d, rs, t) && Claves(Conjunto(guardados)) == Claves(rs)
    ensures var v := SinRetiradas(h, t, guardados);
      Bien(h, d, rs, v) && forall k :: 0 <= k < |v| ==> Mejor(d, v[k]) && !Muerta(h, rs, v[k])
  {
    var v := SinRetiradas(h, t, guardados);
    FiltroDistintas(h, t, guardados);
    forall o ensures Muerta(h, Conjunto(guardados), o) <==> Muerta(h, rs, o) {
      MuertaPorClave(h, Conjunto(guardados), rs, o);
    }
    forall k | 0 <= k < |v| ensures Justificada(h, d, rs, v[k]) && Mejor(d, v[k]) && !Muerta(h, rs, v[k]) {
      assert v[k] in v && v[k] in t;
      VivaEsMejor(h, d, rs, v[k]);
    }
    forall c <- d | Mejor(d, c) && !Muerta(h, rs, c) ensures Presente(v, c.id) {
      var i :| 0 <= i < |t| && t[i].id == c.id;
      QuedaViva(h, d, rs, t[i], c);
      assert t[i] in v;
    }
  }

  /** A justified copy that is not withdrawn is a best one. */
  lemma VivaEsMejor(h: Huella, d: set<Oferta>, rs: set<Retiro>, o: Oferta)
    requires Acordes(d) && Justificada(h, d, rs, o) && !Muerta(h, rs, o)
    ensures Mejor(d, o)
  {
    assert forall c <- d, r <- rs :: c.id == o.id && o.retiroHash == "" && ValePara(h, r, c) ==> ValePara(h, r, o);
  }

  /** The copy on the board of an offer whose best copies live is itself alive. */
  lemma QuedaViva(h: Huella, d: set<Oferta>, rs: set<Retiro>, t: Oferta, c: Oferta)
    requires Acordes(d) && Justificada(h, d, rs, t) && Mejor(d, c) && !Muerta(h, rs, c) && t.id == c.id
    ensures !Muerta(h, rs, t)
  {
    if Mejor(d, t) {
      MejoresMuerenJuntas(h, d, rs, t, c);
    }
  }

  lemma {:induction false} FiltroDistintas(h: Huella, t: seq<Oferta>, rs: seq<Retiro>)
    requires Distintas(t)
    ensures Distintas(SinRetiradas(h, t, rs))
  {
    if |t| == 0 {
    } else {
      FiltroDistintas(h, t[..|t| - 1], rs);
      var v := SinRetiradas(h, t[..|t| - 1], rs);
      forall k | 0 <= k < |v| ensures v[k].id != t[|t| - 1].id {
        assert v[k] in v && v[k] in t[..|t| - 1];
      }
    }
  }

  // ----- any deliveries

  lemma UltimaEntrega(es: seq<Entrega>)
    requires |es| > 0
    ensures var fs, e := es[..|es| - 1], es[|es| - 1];
      && OfertasDe(fs) <= OfertasDe(es) && RetirosDe(fs) <= RetirosDe(es)
      && (match e
          case Ofertas(os) => OfertasDe(es) == OfertasDe(fs) + Conjunto(os) && RetirosDe(es) == RetirosDe(fs)
          case Retiros(ns) => OfertasDe(es) == OfertasDe(fs) && RetirosDe(es) == RetirosDe(fs) + Validos(ns))
  {
  }

  lemma {:induction false} TrasBien(h: Huella, es: seq<Entrega>)
    requires Acordes(OfertasDe(es)) && |Claves(RetirosDe(es))| <= MAX_RETIRADAS
    ensures EstadoBien(h, OfertasDe(es), RetirosDe(es), Tras(h, es))
    decreases |es|
  {
    if |es| == 0 {
    } else {
      var fs, e := es[..|es| - 1], es[|es| - 1];
      var d, rs, s := OfertasDe(fs), RetirosDe(fs), Tras(h, fs);
      UltimaEntrega(es);
      MenosClaves(rs, RetirosDe(es));
      TrasBien(h, fs);
      match e
      case Ofertas(os) => RecibirOfertasBien(h, d, rs, s, os);
      case Retiros(ns) => RecibirRetirosBien(h, d, rs, s, ns);
    }
  }

  /** The store after deliveries that add up to the offers `d` and the tombstones `rs`. */
  predicate EstadoBien(h: Huella, d: set<Oferta>, rs: set<Retiro>, s: Estado) {
    && Recuerda(s.retiradas, rs)
    && Bien(h, d, rs, s.tablero)
    && forall k :: 0 <= k < |s.tablero| ==> Mejor(d, s.tablero[k]) && !Muerta(h, rs, s.tablero[k])
  }

  lemma RecibirOfertasBien(h: Huella, d: set<Oferta>, rs: set<Retiro>, s: Estado, os: seq<Oferta>)
    requires EstadoBien(h, d, rs, s) && Acordes(d + Conjunto(os))
    ensures EstadoBien(h, d + Conjunto(os), rs, Recibir(h, s, Ofertas(os)))
  {
    PonerTodasBien(h, d, rs, s.tablero, os);
    FiltroBien(h, d + Conjunto(os), rs, PonerOfertas(s.tablero, os), s.retiradas);
  }

  lemma RecibirRetirosBien(h: Huella, d: set<Oferta>, rs: set<Retiro>, s: Estado, ns: seq<Retiro>)
    requires EstadoBien(h, d, rs, s) && Acordes(d) && |Claves(rs + Validos(ns))| <= MAX_RETIRADAS
    ensures EstadoBien(h, d, rs + Validos(ns), Recibir(h, s, Retiros(ns)))
  {
    MasNuevosRecuerda(s.retiradas, rs, ns);
    assert forall o :: Muerta(h, rs, o) ==> Muerta(h, rs + Validos(ns), o);
    assert Bien(h, d, rs + Validos(ns), s.tablero);
    FiltroBien(h, d, rs + Validos(ns), s.tablero, MasNuevos(s.retiradas, ns));
  }

  lemma MenosClaves(a: set<Retiro>, b: set<Retiro>)
    requires a <= b
    ensures |Claves(a)| <= |Claves(b)|
  {
    assert Claves(b) == Claves(a) + (Claves(b) - Claves(a));
  }

  /** The board after any deliveries: each offer shows once, as a best delivered copy, and it
      shows exactly when no delivered tombstone kills its best copies. */
  lemma TableroExacto(h: Huella, es: seq<Entrega>, c: Oferta)
    requires Acordes(OfertasDe(es)) && |Claves(RetirosDe(es))| <= MAX_RETIRADAS
    ensures Distintas(EnVista(h, es))
    ensures forall o <- EnVista(h, es) :: Mejor(OfertasDe(es), o) && !Muerta(h, RetirosDe(es), o)
    ensures Mejor(OfertasDe(es), c) ==>
      (!Muerta(h, RetirosDe(es), c) <==> exists o <- EnVista(h, es) :: o.id == c.id && o.retiroHash == c.retiroHash)
  {
    var d, rs, s := OfertasDe(es), RetirosDe(es), Tras(h, es);
    TrasBien(h, es);
    FiltroBien(h, d, rs, s.tablero, s.retiradas);
    if Mejor(d, c) {
      if !Muerta(h, rs, c) {
        var v := EnVista(h, es);
        var i :| 0 <= i < |v| && v[i].id == c.id;
        MejoresMuerenJuntas(h, d, rs, v[i], c);
        assert v[i] in v;
      } else if exists o <- EnVista(h, es) :: o.id == c.id {
        var o :| o in EnVista(h, es) && o.id == c.id;
        MejoresMuerenJuntas(h, d, rs, o, c);
      }
    }
  }

  /** Strong eventual consistency: two stores that were delivered the same offers and the
      same tombstones, in whatever order, batches and repetitions, show the same offers (when
      copies of one offer that both carry, or both lack, the commitment are the same copy). */
  lemma MismasEntregasMismaVista(h: Huella, es: seq<Entrega>, fs: seq<Entrega>)
    requires OfertasDe(es) == OfertasDe(fs) && Claves(RetirosDe(es)) == Claves(RetirosDe(fs))
    requires Acordes(OfertasDe(es)) && |Claves(RetirosDe(es))| <= MAX_RETIRADAS
    requires forall a <- OfertasDe(es), b <- OfertasDe(es) ::
      a.id == b.id && (a.retiroHash == "" <==> b.retiroHash == "") ==> a == b
    ensures Conjunto(EnVista(h, es)) == Conjunto(EnVista(h, fs))
  {
    MismaVistaUnLado(h, es, fs);
    MismaVistaUnLado(h, fs, es);
  }

  lemma MismaVistaUnLado(h: Huella, es: seq<Entrega>, fs: seq<Entrega>)
    requires OfertasDe(es) == OfertasDe(fs) && Claves(RetirosDe(es)) == Claves(RetirosDe(fs))
    requires Acordes(OfertasDe(es)) && |Claves(RetirosDe(es))| <= MAX_RETIRADAS
    requires forall a <- OfertasDe(es), b <- OfertasDe(es) ::
      a.id == b.id && (a.retiroHash == "" <==> b.retiroHash == "") ==> a == b
    ensures Conjunto(EnVista(h, es)) <= Conjunto(EnVista(h, fs))
  {
    forall c <- EnVista(h, es) ensures c in EnVista(h, fs) {
      TableroExacto(h, es, c);
      TableroExacto(h, fs, c);
      MuertaPorClave(h, RetirosDe(es), RetirosDe(fs), c);
      var o :| o in EnVista(h, fs) && o.id == c.id && o.retiroHash == c.retiroHash;
      assert o == c;
    }
  }

  /** An offer published with its commitment and withdrawn by its secret never shows again,
      under any id-sharing copy, however often and late anyone announces it. */
  lemma LaRetiradaNoVuelve(h: Huella, es: seq<Entrega>, c: Oferta, r: Retiro)
    requires Acordes(OfertasDe(es)) && |Claves(RetirosDe(es))| <= MAX_RETIRADAS
    requires c in OfertasDe(es) && c.retiroHash != "" && r in RetirosDe(es) && ValePara(h, r, c)
    ensures forall o <- EnVista(h, es) :: o.id != c.id
  {
    TableroExacto(h, es, c);
    forall o <- EnVista(h, es) ensures o.id != c.id {
      if o.id == c.id {
        MejoresMuerenJuntas(h, OfertasDe(es), RetirosDe(es), o, c);
      }
    }
  }

  /** The filter on reading is already in force: after any deliveries the stored board holds no
      offer that a stored tombstone kills. */
  lemma {:induction false} LaVistaEsElTablero(h: Huella, es: seq<Entrega>)
    ensures EnVista(h, es) == Tras(h, es).tablero
  {
    var s := Tras(h, es);
    NadieMuere(h, s.tablero, s.retiradas);
    if |es| == 0 {
    } else {
      assert s == Recibir(h, Tras(h, es[..|es| - 1]), es[|es| - 1]);
    }
  }

  /** A withdrawal that `retirar_oferta` let out does its work everywhere: in any store that gets
      it, with whatever else and in whatever order, the offer is gone with every copy that its
      author made; and one that it refused would have left the offer in sight. */
  lemma LoQueSaleRetira(h: Huella, o: Oferta, yo: string, prueba: string, obras: seq<Obra>, ahora: int,
                        es: seq<Entrega>)
    requires Acordes(OfertasDe(es)) && |Claves(RetirosDe(es))| <= MAX_RETIRADAS
    requires o in OfertasDe(es) && Mejor(OfertasDe(es), o) && o.id != "" && yo != ""
    ensures RetirarOferta(h, o, yo, prueba, obras, ahora).Ok? &&
            RetirarOferta(h, o, yo, prueba, obras, ahora).valor in RetirosDe(es) ==>
      forall x <- EnVista(h, es) :: x.id != o.id
    ensures RetirarOferta(h, o, yo, prueba, obras, ahora).Err? && EnTablero(o.id, obras) &&
            RetirosDe(es) == {Retiro.Retiro(o.id, yo, ahora, prueba)} ==>
      exists x <- EnVista(h, es) :: x.id == o.id
  {
    var r := Retiro.Retiro(o.id, yo, ahora, prueba);
    RetiroSaleSiVale(h, o, yo, prueba, obras, ahora);
    TableroExacto(h, es, o);
    if r in RetirosDe(es) && ValePara(h, r, o) {
      forall x <- EnVista(h, es) ensures x.id != o.id {
        if x.id == o.id {
          MejoresMuerenJuntas(h, OfertasDe(es), RetirosDe(es), x, o);
        }
      }
    }
  }
}
