/** A restore over many starts: each may be cut anywhere or stopped by an error, and the
    application may run on and write live entries between them. */
module RestauracionTraza {
  import opened Base
  import opened Restauracion

  // ----- progress adds up

  lemma NuevosJuntos(d0: Disco, d1: Disco, d2: Disco, n: string)
    requires Avance(d0, d1) && Avance(d1, d2)
    ensures Nuevo(d0, d2, n) <==> Nuevo(d0, d1, n) || Nuevo(d1, d2, n)
    ensures Nuevo(d0, d1, n) ==> d2[n] == d1[n] && !Nuevo(d1, d2, n)
  {
    NombresAparte();
  }

  lemma ContieneJunto(d0: Disco, d1: Disco, d2: Disco, v: string, n: string)
    requires Avance(d0, d1) && Avance(d1, d2)
    ensures Contiene(d0, d2, v, n) <==> Contiene(d0, d1, v, n) || Contiene(d1, d2, v, n)
    ensures Contiene(d0, d1, v, n) ==> d2[n] == d1[n]
  {
    NuevosJuntos(d0, d1, d2, n);
  }

  /** What a later start moves away was still as at the beginning. */
  lemma MovidaDespues(d0: Disco, d1: Disco, d2: Disco, v: string, n: string)
    requires Avance(d0, d1) && Avance(d1, d2) && Contiene(d1, d2, v, n)
    ensures v in VIVOS && v in d1 && d2[n].m[v] == d1[v]
    ensures Toca(d1, v) && Quieta(d0, d1, v)
  {
    assert Suerte(d1, d2, v) && Suerte(d0, d1, v);
  }

  lemma PreviosJuntos(d0: Disco, d1: Disco, d2: Disco)
    requires Avance(d0, d1) && Avance(d1, d2)
    ensures Previos(d0, d2) && Ajenos(d0, d2)
  {
    NombresAparte();
    forall n <- d2 | Nuevo(d0, d2, n)
      ensures EsPrevio(n) && d2[n].Carpeta? && forall v <- d2[n].m :: v in VIVOS && v in d0 && d2[n].m[v] == d0[v]
    {
      NuevosJuntos(d0, d1, d2, n);
      if Nuevo(d1, d2, n) {
        forall v <- d2[n].m ensures v in VIVOS && v in d0 && d2[n].m[v] == d0[v] {
          MovidaDespues(d0, d1, d2, v, n);
        }
      }
    }
  }

  lemma QuietaJunta(d0: Disco, d1: Disco, d2: Disco, v: string)
    requires Avance(d0, d1) && Avance(d1, d2) && Quieta(d0, d1, v) && Quieta(d1, d2, v)
    ensures Quieta(d0, d2, v)
  {
    forall n ensures !Contiene(d0, d2, v, n) {
      ContieneJunto(d0, d1, d2, v, n);
    }
  }

  /** Saved by the second start. */
  lemma GuardadaLuego(d0: Disco, d1: Disco, d2: Disco, v: string)
    requires Avance(d0, d1) && Avance(d1, d2) && Quieta(d0, d1, v) && GuardadaUnaVez(d1, d2, v)
    ensures GuardadaUnaVez(d0, d2, v)
  {
    var n :| GuardadaEn(d1, d2, v, n) && forall x :: Contiene(d1, d2, v, x) ==> x == n;
    ContieneJunto(d0, d1, d2, v, n);
    assert GuardadaEn(d0, d2, v, n);
    forall x | Contiene(d0, d2, v, x) ensures x == n {
      ContieneJunto(d0, d1, d2, v, x);
    }
  }

  /** Saved by the first start: the second one has nothing to move under that name. */
  lemma GuardadaAntes(d0: Disco, d1: Disco, d2: Disco, v: string)
    requires Avance(d0, d1) && Avance(d1, d2) && GuardadaUnaVez(d0, d1, v)
    ensures GuardadaUnaVez(d0, d2, v)
  {
    var n :| GuardadaEn(d0, d1, v, n) && forall x :: Contiene(d0, d1, v, x) ==> x == n;
    ContieneJunto(d0, d1, d2, v, n);
    assert GuardadaEn(d0, d2, v, n);
    forall x | Contiene(d0, d2, v, x) ensures x == n {
      ContieneJunto(d0, d1, d2, v, x);
      NoDosVeces(d0, d1, d2, v, n, x);
    }
  }

  lemma NoDosVeces(d0: Disco, d1: Disco, d2: Disco, v: string, n: string, x: string)
    requires Avance(d0, d1) && Avance(d1, d2) && Contiene(d0, d1, v, n)
    ensures !Contiene(d1, d2, v, x)
  {
    if Contiene(d1, d2, v, x) {
      MovidaDespues(d0, d1, d2, v, x);
    }
  }

  lemma SuerteJunta(d0: Disco, d1: Disco, d2: Disco, v: string)
    requires Avance(d0, d1) && Avance(d1, d2) && v in VIVOS
    ensures Suerte(d0, d2, v)
  {
    assert Suerte(d0, d1, v) && Suerte(d1, d2, v);
    if Quieta(d0, d1, v) && Quieta(d1, d2, v) {
      QuietaJunta(d0, d1, d2, v);
    }
    if Quieta(d0, d1, v) && GuardadaUnaVez(d1, d2, v) {
      GuardadaLuego(d0, d1, d2, v);
    }
    if GuardadaUnaVez(d0, d1, v) {
      GuardadaAntes(d0, d1, d2, v);
    }
  }

  /** Two starts in a row are as one. */
  lemma AvanceTransitivo(d0: Disco, d1: Disco, d2: Disco)
    requires Avance(d0, d1) && Avance(d1, d2)
    ensures Avance(d0, d2)
  {
    PreviosJuntos(d0, d1, d2);
    forall v <- VIVOS ensures Suerte(d0, d2, v) {
      SuerteJunta(d0, d1, d2, v);
    }
  }

  // ----- traces

  /** A start of the application that may take so many steps, or a write of a live entry
      (`None` removes it) by an application that ran on. */
  datatype Suceso = Arranque(pasos: nat, base: string) | Escribe(n: string, x: Option<Nodo>)

  datatype Escritura = Escritura(n: string, x: Option<Nodo>)

  function Escrito(d: Disco, n: string, x: Option<Nodo>): Disco {
    match x
    case None => d - {n}
    case Some(y) => d[n := y]
  }

  ghost predicate Tramo(d: Disco, s: Suceso, e: Disco) {
    match s
    case Arranque(_, _) => Avance(d, e)
    case Escribe(n, x) => n in VIVOS && e == Escrito(d, n, x)
  }

  /** The disks between the events of a plan. */
  ghost predicate Traza(hist: seq<Disco>, plan: seq<Suceso>) {
    && |hist| == |plan| + 1 && Bien(hist[0])
    && forall k :: 0 <= k < |plan| ==> Tramo(hist[k], plan[k], hist[k + 1])
  }

  /** A write changes the future only under a name that the restore no longer touches. */
  lemma EscritoFuturo(d: Disco, n: string, x: Option<Nodo>)
    requires Bien(d) && n in VIVOS
    ensures var e := Escrito(d, n, x);
      && Bien(e) && (LISTO in e <==> LISTO in d)
      && Futuro(e) == if Toca(d, n) then Futuro(d) else Escrito(Futuro(d), n, x)
  {
    NombresAparte();
    var e := Escrito(d, n, x);
    assert LISTO in d ==> LISTO in e && e[LISTO] == d[LISTO];
    if Toca(d, n) {
      EscritoTocado(d, n, e);
    } else {
      EscritoAparte(d, n, x);
    }
  }

  lemma EscritoTocado(d: Disco, n: string, e: Disco)
    requires Bien(d) && n in VIVOS && Toca(d, n) && LISTO in e && e[LISTO] == d[LISTO]
    requires e - {n} == d - {n}
    ensures Futuro(e) == Futuro(d)
  {
    assert forall k :: k != n ==> (k in e <==> k in d - {n}) && (k in d <==> k in d - {n});
    assert forall k :: k != n && k in d ==> (d - {n})[k] == d[k] && (k in e ==> (e - {n})[k] == e[k]);
  }

  lemma EscritoAparte(d: Disco, n: string, x: Option<Nodo>)
    requires Bien(d) && n in VIVOS && n != LISTO && !Toca(d, n)
    ensures Bien(Escrito(d, n, x)) && Futuro(Escrito(d, n, x)) == Escrito(Futuro(d), n, x)
  {
    var e := Escrito(d, n, x);
    assert LISTO in d <==> LISTO in e;
    if LISTO in d {
      assert e[LISTO] == d[LISTO];
    }
    var f, r := Futuro(e), Escrito(Futuro(d), n, x);
    assert forall k :: k in f <==> k in r;
  }

  /** One write leaves the future as it was exactly when the name is still to be replaced, or
      when it writes what was there. */
  lemma EscritoValeSi(d: Disco, n: string, x: Option<Nodo>)
    requires Bien(d) && n in VIVOS
    ensures Bien(Escrito(d, n, x))
    ensures Futuro(Escrito(d, n, x)) == Futuro(d) <==> Toca(d, n) || x == if n in d then Some(d[n]) else None
  {
    EscritoFuturo(d, n, x);
    if !Toca(d, n) {
      assert n in Futuro(d) <==> n in d;
    }
  }

  /** The writes of a trace that fell on names the restore no longer touched. */
  function Desvios(hist: seq<Disco>, plan: seq<Suceso>): seq<Escritura>
    requires |hist| == |plan| + 1
  {
    if |plan| == 0 then []
    else
      var k := |plan| - 1;
      Desvios(hist[..k + 1], plan[..k]) +
      match plan[k]
      case Arranque(_, _) => []
      case Escribe(n, x) => if Toca(hist[k], n) then [] else [Escritura(n, x)]
  }

  function Aplicadas(f: Disco, ds: seq<Escritura>): Disco {
    if |ds| == 0 then f
    else Escrito(Aplicadas(f, ds[..|ds| - 1]), ds[|ds| - 1].n, ds[|ds| - 1].x)
  }

  /** Whatever the cuts, the errors and the writes: the future of the last disk is that of the
      first one with the stray writes on top. */
  lemma {:induction false} TrazaFuturo(hist: seq<Disco>, plan: seq<Suceso>)
    requires Traza(hist, plan)
    ensures Bien(hist[|plan|])
    ensures Futuro(hist[|plan|]) == Aplicadas(Futuro(hist[0]), Desvios(hist, plan))
    decreases |plan|
  {
    if |plan| == 0 {
    } else {
      var k := |plan| - 1;
      var antes, previa := hist[..k + 1], plan[..k];
      assert Traza(antes, previa);
      TrazaFuturo(antes, previa);
      assert antes[k] == hist[k] && Tramo(hist[k], plan[k], hist[k + 1]);
      var ds := Desvios(antes, previa);
      match plan[k]
      case Arranque(_, _) =>
        assert Desvios(hist, plan) == ds;
      case Escribe(n, x) =>
        EscritoFuturo(hist[k], n, x);
        if Toca(hist[k], n) {
          assert Desvios(hist, plan) == ds;
        } else {
          assert Desvios(hist, plan) == ds + [Escritura(n, x)];
          assert (ds + [Escritura(n, x)])[..|ds|] == ds;
        }
    }
  }

  /** The last of the writes under a name, if there is one. */
  function Ultima(ds: seq<Escritura>, n: string): Option<Escritura> {
    if |ds| == 0 then None
    else if ds[|ds| - 1].n == n then Some(ds[|ds| - 1]) else Ultima(ds[..|ds| - 1], n)
  }

  /** Under each name the last write left what `f` has there. */
  ghost predicate SinHuella(ds: seq<Escritura>, f: Disco) {
    forall n :: Ultima(ds, n).Some? ==> Ultima(ds, n).value.x == if n in f then Some(f[n]) else None
  }

  lemma {:induction false} AplicadaEn(f: Disco, ds: seq<Escritura>, n: string)
    ensures var r, u := Aplicadas(f, ds), Ultima(ds, n);
      (if n in r then Some(r[n]) else None) == if u.Some? then u.value.x else if n in f then Some(f[n]) else None
  {
    if |ds| == 0 {
    } else {
      AplicadaEn(f, ds[..|ds| - 1], n);
    }
  }

  lemma AplicadasIgualSi(f: Disco, ds: seq<Escritura>)
    ensures Aplicadas(f, ds) == f <==> SinHuella(ds, f)
  {
    var r := Aplicadas(f, ds);
    forall n ensures (if n in r then Some(r[n]) else None) ==
      if Ultima(ds, n).Some? then Ultima(ds, n).value.x else if n in f then Some(f[n]) else None
    {
      AplicadaEn(f, ds, n);
    }
    if SinHuella(ds, f) {
      assert forall n :: n in r <==> n in f;
      assert forall n <- f :: r[n] == f[n];
    }
  }

  /** When the restore is over, the live entries are exactly the restored set if and only if,
      under each name, the last write made after the restore was done with it left what the
      restored set has. In particular they are if the application wrote nothing between the
      starts, or only while the old entries were still being moved away. */
  lemma RestauradaSi(hist: seq<Disco>, plan: seq<Suceso>)
    requires Traza(hist, plan) && LISTO !in hist[|plan|]
    ensures Vivas(hist[|plan|]) == Aplicadas(Futuro(hist[0]), Desvios(hist, plan))
    ensures Vivas(hist[|plan|]) == Futuro(hist[0]) <==> SinHuella(Desvios(hist, plan), Futuro(hist[0]))
  {
    TrazaFuturo(hist, plan);
    AplicadasIgualSi(Futuro(hist[0]), Desvios(hist, plan));
  }

  // ----- nothing is lost

  lemma {:induction false} AjenosSiempre(hist: seq<Disco>, plan: seq<Suceso>, j: nat)
    requires Traza(hist, plan) && j <= |plan|
    ensures Ajenos(hist[j], hist[|plan|])
    decreases |plan| - j
  {
    if j == |plan| {
    } else {
      NombresAparte();
      AjenosSiempre(hist, plan, j + 1);
      assert Tramo(hist[j], plan[j], hist[j + 1]);
    }
  }

  /** Each start leaves every live entry where it is or moves it whole into exactly one new
      `previo-*` folder, and that folder is still there, as it was, at the end of any plan. */
  lemma NadaSePierde(hist: seq<Disco>, plan: seq<Suceso>, k: nat, v: string)
    requires Traza(hist, plan) && k < |plan| && plan[k].Arranque? && v in Vivas(hist[k])
    ensures Quieta(hist[k], hist[k + 1], v) || GuardadaUnaVez(hist[k], hist[k + 1], v)
    ensures forall p :: GuardadaEn(hist[k], hist[k + 1], v, p) ==> SigueEn(hist[k], v, p, hist[|plan|])
  {
    var d, e, fin := hist[k], hist[k + 1], hist[|plan|];
    assert Tramo(d, plan[k], e);
    assert Suerte(d, e, v);
    AjenosSiempre(hist, plan, k + 1);
    forall p | GuardadaEn(d, e, v, p) ensures SigueEn(d, v, p, fin) {
      PrevioSigue(d, e, v, p, fin);
    }
  }

  /** The folder `p` holds the entry `v` as it was on the disk `d`. */
  ghost predicate SigueEn(d: Disco, v: string, p: string, fin: Disco) {
    v in d && p in fin && fin[p].Carpeta? && v in fin[p].m && fin[p].m[v] == d[v]
  }

  lemma PrevioSigue(d: Disco, e: Disco, v: string, p: string, fin: Disco)
    requires GuardadaEn(d, e, v, p) && Ajenos(e, fin)
    ensures SigueEn(d, v, p, fin)
  {
    NombresAparte();
  }

  predicate SinEscrituras(plan: seq<Suceso>) {
    forall k :: 0 <= k < |plan| ==> plan[k].Arranque?
  }

  /** With cuts only, a whole plan is one progress. */
  lemma {:induction false} SoloCortes(hist: seq<Disco>, plan: seq<Suceso>)
    requires Traza(hist, plan) && SinEscrituras(plan)
    ensures Avance(hist[0], hist[|plan|])
    decreases |plan|
  {
    if |plan| == 0 {
      SinAvance(hist[0]);
    } else {
      var k := |plan| - 1;
      assert Traza(hist[..k + 1], plan[..k]);
      SoloCortes(hist[..k + 1], plan[..k]);
      assert Tramo(hist[k], plan[k], hist[k + 1]);
      AvanceTransitivo(hist[0], hist[k], hist[k + 1]);
    }
  }

  // ----- replacing a restore that is still waiting

  /** The waiting folder after some of its entries were deleted. */
  function Roida(d: Disco, borrados: set<string>): Disco
    requires LISTO in d && d[LISTO].Carpeta?
  {
    d[LISTO := Carpeta(d[LISTO].m - borrados)]
  }

  /** `preparar` deletes a waiting folder entry by entry before it puts the new one there. Cut
      in between, the next start completes what is left of the old restore: with the marker,
      the same set if and only if nothing was deleted; without it, the same set if and only if
      no live entry is outside it and the deleted ones are live already. */
  lemma RoidaValeSi(d: Disco, borrados: set<string>)
    requires Bien(d) && Marcada(d) && borrados <= d[LISTO].m.Keys
    ensures Bien(Roida(d, borrados))
    ensures FASE_A !in borrados ==> Futuro(Roida(d, borrados)) == Futuro(d) - borrados
    ensures FASE_A !in borrados ==> (Futuro(Roida(d, borrados)) == Futuro(d) <==> borrados == {})
    ensures FASE_A in borrados ==>
      (Futuro(Roida(d, borrados)) == Futuro(d) <==>
         && (forall n <- Vivas(d) :: n in d[LISTO].m)
         && (forall n <- borrados :: n != FASE_A ==> n in d && d[n] == d[LISTO].m[n]))
  {
    if FASE_A !in borrados {
      RoidaConMarca(d, borrados);
    } else {
      RoidaSinMarca(d, borrados);
    }
  }

  lemma RoidaConMarca(d: Disco, borrados: set<string>)
    requires Bien(d) && Marcada(d) && borrados <= d[LISTO].m.Keys && FASE_A !in borrados
    ensures Bien(Roida(d, borrados)) && Futuro(Roida(d, borrados)) == Futuro(d) - borrados
    ensures Futuro(Roida(d, borrados)) == Futuro(d) <==> borrados == {}
  {
    var f, r := Futuro(d), Futuro(Roida(d, borrados));
    if borrados != {} {
      var n :| n in borrados;
      assert n in f && n !in r;
    }
  }

  lemma RoidaSinMarca(d: Disco, borrados: set<string>)
    requires Bien(d) && Marcada(d) && borrados <= d[LISTO].m.Keys && FASE_A in borrados
    ensures Bien(Roida(d, borrados))
    ensures Futuro(Roida(d, borrados)) == Futuro(d) <==>
      && (forall n <- Vivas(d) :: n in d[LISTO].m)
      && (forall n <- borrados :: n != FASE_A ==> n in d && d[n] == d[LISTO].m[n])
  {
    NombresAparte();
    FuturosIgualesSi(Vivas(d), d[LISTO].m, borrados, Futuro(d), Futuro(Roida(d, borrados)));
  }

  lemma FuturosIgualesSi(vivas: Disco, m: Disco, borrados: set<string>, f: Disco, r: Disco)
    requires FASE_A in borrados && borrados <= m.Keys && FASE_A !in vivas
    requires f == m - {FASE_A} && r.Keys == m.Keys - borrados + vivas.Keys
    requires forall n <- r :: r[n] == if n in m && n !in borrados then m[n] else vivas[n]
    ensures r == f <==>
      && (forall n <- vivas :: n in m)
      && (forall n <- borrados :: n != FASE_A ==> n in vivas && vivas[n] == m[n])
  {
    if r == f {
      assert forall n <- vivas :: n in r;
      assert forall n <- borrados :: n != FASE_A ==> n in f;
    } else if vivas.Keys <= m.Keys && forall n <- borrados :: n != FASE_A ==> n in vivas && vivas[n] == m[n] {
      assert r.Keys == f.Keys;
    }
  }
}
