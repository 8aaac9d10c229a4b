/** The bounded tombstone list: merging batch after batch and cutting each time to 512 keeps
    exactly the 512 newest tombstones ever delivered (top-k of top-k). */
module Lapidas {
  import opened Tablero
  import opened TableroConverge

  /** Each tombstone has its own time, and one key is one tombstone. */
  predicate Fechadas(rs: set<Retiro>) {
    forall a <- rs, b <- rs :: a.cuando == b.cuando || MismaClave(a, b) ==> a == b
  }

  predicate EstrictoDesc(a: seq<Retiro>) {
    forall i, j :: 0 <= i < j < |a| ==> a[i].cuando > a[j].cuando
  }

  /** `a` is the list of the newest `MAX_RETIRADAS` of `rs`, newest first. */
  predicate SonLasUltimas(a: seq<Retiro>, rs: set<Retiro>) {
    && EstrictoDesc(a) && Conjunto(a) <= rs && |a| <= MAX_RETIRADAS
    && forall r <- rs :: r in a || (|a| == MAX_RETIRADAS && forall x <- a :: x.cuando > r.cuando)
  }

  // ----- such a list is unique

  predicate SinRepetir(a: seq<Retiro>) {
    forall i, j :: 0 <= i < j < |a| ==> a[i] != a[j]
  }

  lemma {:induction false} CuantasSinRepetir(a: seq<Retiro>)
    requires SinRepetir(a)
    ensures |Conjunto(a)| == |a|
  {
    if |a| == 0 {
      assert Conjunto(a) == {};
    } else {
      var b, x := a[..|a| - 1], a[|a| - 1];
      CuantasSinRepetir(b);
      assert a == b + [x];
      assert x !in b;
      assert Conjunto(a) == Conjunto(b) + {x};
    }
  }

  lemma {:induction false} EstrictoUnico(a: seq<Retiro>, b: seq<Retiro>)
    requires EstrictoDesc(a) && EstrictoDesc(b) && Conjunto(a) == Conjunto(b)
    ensures a == b
    decreases |a|
  {
    CuantasSinRepetir(a);
    CuantasSinRepetir(b);
    if |a| == 0 {
    } else {
      assert a[0] in Conjunto(b) && b[0] in Conjunto(a);
      assert a[0] == b[0];
      assert a == [a[0]] + a[1..] && b == [b[0]] + b[1..];
      assert a[0] !in a[1..] && b[0] !in b[1..];
      assert Conjunto(a[1..]) == Conjunto(a) - {a[0]};
      assert Conjunto(b[1..]) == Conjunto(b) - {b[0]};
      EstrictoUnico(a[1..], b[1..]);
    }
  }

  lemma UltimasIncluidas(a: seq<Retiro>, b: seq<Retiro>, rs: set<Retiro>)
    requires SonLasUltimas(a, rs) && SonLasUltimas(b, rs)
    ensures Conjunto(a) <= Conjunto(b)
  {
    CuantasSinRepetir(a);
    CuantasSinRepetir(b);
    forall x <- a ensures x in b {
      if x !in b {
        forall y <- b ensures y in a {
          assert y in rs && x in rs;
        }
        assert Conjunto(b) <= Conjunto(a) - {x};
        MenosQue(Conjunto(b), Conjunto(a) - {x});
      }
    }
  }

  lemma MenosQue(a: set<Retiro>, b: set<Retiro>)
    requires a <= b
    ensures |a| <= |b|
  {
    assert b == a + (b - a);
  }

  /** The stored list is a function of the set that was delivered. */
  lemma UltimasUnicas(a: seq<Retiro>, b: seq<Retiro>, rs: set<Retiro>)
    requires SonLasUltimas(a, rs) && SonLasUltimas(b, rs)
    ensures a == b
  {
    UltimasIncluidas(a, b, rs);
    UltimasIncluidas(b, a, rs);
    EstrictoUnico(a, b);
  }

  // ----- one batch

  /** One key is one tombstone. */
  predicate Unicas(rs: set<Retiro>) {
    forall a <- rs, b <- rs :: MismaClave(a, b) ==> a == b
  }

  lemma {:induction false} PonerReune(a: seq<Retiro>, b: seq<Retiro>)
    requires SinRepetir(a) && Unicas(Conjunto(a) + Validos(b))
    ensures SinRepetir(PonerRetiros(a, b)) && Conjunto(PonerRetiros(a, b)) == Conjunto(a) + Validos(b)
    decreases |b|
  {
    if |b| == 0 {
      assert Conjunto(a) + Validos(b) == Conjunto(a);
    } else {
      var c, r := b[..|b| - 1], b[|b| - 1];
      assert b == c + [r];
      assert Validos(b) == Validos(c) + if ConIds(r) then {r} else {};
      PonerReune(a, c);
      if ConIds(r) {
        assert Conjunto(a) + Validos(b) == Conjunto(PonerRetiros(a, c)) + {r};
        PonerUnaReune(PonerRetiros(a, c), r);
      }
    }
  }

  lemma PonerUnaReune(p: seq<Retiro>, r: Retiro)
    requires SinRepetir(p) && Unicas(Conjunto(p) + {r}) && ConIds(r)
    ensures SinRepetir(PonerRetiro(p, r)) && Conjunto(PonerRetiro(p, r)) == Conjunto(p) + {r}
  {
    if exists x <- p :: MismaClave(x, r) {
      var x :| x in p && MismaClave(x, r);
      assert x in Conjunto(p);
    } else {
      assert MismaClave(r, r);
      assert Conjunto(p + [r]) == Conjunto(p) + {r};
    }
  }

  lemma OrdenadaSinRepetir(a: seq<Retiro>)
    requires SinRepetir(a)
    ensures Descendente(Ordenar(a)) && SinRepetir(Ordenar(a)) && Conjunto(Ordenar(a)) == Conjunto(a)
  {
    OrdenarOrdena(a);
    var s := Ordenar(a);
    PermutaConjunto(s, a);
    UnaVezCadaUna(a);
    forall i, j | 0 <= i < j < |s| ensures s[i] != s[j] {
      if s[i] == s[j] {
        RepetidaCuentaDos(s, i, j);
      }
    }
  }

  lemma OrdenEstricto(a: seq<Retiro>)
    requires SinRepetir(a) && Fechadas(Conjunto(a))
    ensures EstrictoDesc(Ordenar(a)) && Conjunto(Ordenar(a)) == Conjunto(a)
  {
    OrdenadaSinRepetir(a);
    var s := Ordenar(a);
    forall i, j | 0 <= i < j < |s| ensures s[i].cuando > s[j].cuando {
      OtraFecha(s, i, j);
    }
  }

  lemma OtraFecha(s: seq<Retiro>, i: nat, j: nat)
    requires i < j < |s| && Fechadas(Conjunto(s)) && s[i].cuando >= s[j].cuando && s[i] != s[j]
    ensures s[i].cuando > s[j].cuando
  {
    assert s[i] in Conjunto(s) && s[j] in Conjunto(s);
  }

  lemma {:induction false} UnaVezCadaUna(a: seq<Retiro>)
    requires SinRepetir(a)
    ensures forall x :: multiset(a)[x] <= 1
  {
    if |a| == 0 {
    } else {
      var b, y := a[..|a| - 1], a[|a| - 1];
      assert a == b + [y];
      UnaVezCadaUna(b);
      assert y !in b;
      assert multiset(b)[y] == 0;
    }
  }

  lemma RepetidaCuentaDos(s: seq<Retiro>, i: nat, j: nat)
    requires i < j < |s| && s[i] == s[j]
    ensures multiset(s)[s[i]] >= 2
  {
    assert s == s[..j] + s[j..];
    assert s[..j][i] == s[i] && s[j..][0] == s[j];
    assert s[i] in s[..j] && s[i] in s[j..];
    assert multiset(s) == multiset(s[..j]) + multiset(s[j..]);
    assert multiset(s[..j])[s[i]] > 0 && multiset(s[j..])[s[i]] > 0;
  }

  predicate Postergada(t: seq<Retiro>, r: Retiro) {
    |t| == MAX_RETIRADAS && forall x <- t :: x.cuando > r.cuando
  }

  lemma RecorteUno(a: seq<Retiro>, b: seq<Retiro>, rs: set<Retiro>, r: Retiro)
    requires SonLasUltimas(a, rs) && EstrictoDesc(b) && Conjunto(a) <= Conjunto(b) && r in rs + Conjunto(b)
    ensures r in Recortar(b) || Postergada(Recortar(b), r)
  {
    var t := Recortar(b);
    if r in b {
      var i :| 0 <= i < |b| && b[i] == r;
      if i < |t| {
        assert t[i] == r;
      } else {
        assert forall j :: 0 <= j < |t| ==> t[j] == b[j];
      }
    } else {
      assert r !in Conjunto(a);
      CuantasSinRepetir(a);
      CuantasSinRepetir(b);
      MenosQue(Conjunto(a), Conjunto(b));
      ViejaQueda(a, b, r);
    }
  }

  lemma Recorte(a: seq<Retiro>, b: seq<Retiro>, rs: set<Retiro>)
    requires SonLasUltimas(a, rs) && EstrictoDesc(b) && Conjunto(a) <= Conjunto(b)
    ensures SonLasUltimas(Recortar(b), rs + Conjunto(b))
  {
    forall r <- rs + Conjunto(b) ensures r in Recortar(b) || Postergada(Recortar(b), r) {
      RecorteUno(a, b, rs, r);
    }
  }

  /** A tombstone older than a full list is older than the 512 newest of any larger list. */
  lemma ViejaQueda(a: seq<Retiro>, b: seq<Retiro>, r: Retiro)
    requires |a| == MAX_RETIRADAS <= |b| && EstrictoDesc(a) && EstrictoDesc(b) && Conjunto(a) <= Conjunto(b)
    requires forall x <- a :: x.cuando > r.cuando
    ensures forall x <- b[..MAX_RETIRADAS] :: x.cuando > r.cuando
  {
    forall i | 0 <= i < MAX_RETIRADAS ensures b[i].cuando > r.cuando {
      if b[i].cuando <= r.cuando {
        forall x <- Conjunto(a) ensures x in b[..i] {
          assert x in Conjunto(b);
          var j :| 0 <= j < |b| && b[j] == x;
          assert j < i;
          assert b[..i][j] == x;
        }
        CuantasSinRepetir(a);
        CuantasSinRepetir(b[..i]);
        MenosQue(Conjunto(a), Conjunto(b[..i]));
      }
    }
  }

  lemma UnLoteMantiene(a: seq<Retiro>, rs: set<Retiro>, b: seq<Retiro>)
    requires SonLasUltimas(a, rs) && Fechadas(rs + Validos(b))
    ensures SonLasUltimas(MasNuevos(a, b), rs + Validos(b))
  {
    assert Conjunto(a) + Validos(b) <= rs + Validos(b);
    PonerReune(a, b);
    OrdenEstricto(PonerRetiros(a, b));
    var s := Ordenar(PonerRetiros(a, b));
    assert rs + Conjunto(s) == rs + Validos(b);
    Recorte(a, s, rs);
  }

  /** Whatever the batches, their order and their repetitions, the store holds exactly the
      512 newest tombstones of all that were ever delivered, newest first. */
  lemma {:induction false} SiempreLasUltimas(h: Huella, es: seq<Entrega>)
    requires Fechadas(RetirosDe(es))
    ensures SonLasUltimas(Tras(h, es).retiradas, RetirosDe(es))
    decreases |es|
  {
    if |es| == 0 {
    } else {
      var fs, e := es[..|es| - 1], es[|es| - 1];
      assert RetirosDe(fs) <= RetirosDe(es);
      SiempreLasUltimas(h, fs);
      match e
      case Ofertas(_) =>
        assert RetirosDe(es) == RetirosDe(fs);
      case Retiros(ns) =>
        UnLoteMantiene(Tras(h, fs).retiradas, RetirosDe(fs), ns);
    }
  }

  /** So two stores that were delivered the same tombstones hold the same list. */
  lemma MismasLapidas(h: Huella, es: seq<Entrega>, fs: seq<Entrega>)
    requires RetirosDe(es) == RetirosDe(fs) && Fechadas(RetirosDe(es))
    ensures Tras(h, es).retiradas == Tras(h, fs).retiradas
  {
    SiempreLasUltimas(h, es);
    SiempreLasUltimas(h, fs);
    UltimasUnicas(Tras(h, es).retiradas, Tras(h, fs).retiradas, RetirosDe(es));
  }

  // ----- equal dates

  /** `a` is a list of `MAX_RETIRADAS` newest of `rs`, some of which may be as new as some left
      out. */
  predicate SonDeLasUltimas(a: seq<Retiro>, rs: set<Retiro>) {
    && Descendente(a) && SinRepetir(a) && Conjunto(a) <= rs && |a| <= MAX_RETIRADAS
    && forall r <- rs :: r in a || (|a| == MAX_RETIRADAS && forall x <- a :: x.cuando >= r.cuando)
  }

  /** Some element of a full list is past the cut when another one is before it. */
  lemma UnaQuedaFuera(a: seq<Retiro>, b: seq<Retiro>, x: Retiro) returns (j: nat)
    requires |a| == MAX_RETIRADAS <= |b| && SinRepetir(a) && SinRepetir(b) && Conjunto(a) <= Conjunto(b)
    requires x in b[..MAX_RETIRADAS] && x !in a
    ensures MAX_RETIRADAS <= j < |b| && b[j] in a
  {
    var t := b[..MAX_RETIRADAS];
    CuantasSinRepetir(a);
    CuantasSinRepetir(t);
    if Conjunto(a) <= Conjunto(t) {
      MenosQue(Conjunto(a), Conjunto(t) - {x});
    }
    var z :| z in Conjunto(a) && z !in Conjunto(t);
    assert z in Conjunto(b);
    assert forall k :: 0 <= k < |t| ==> b[k] == t[k] && t[k] in Conjunto(t);
    j :| 0 <= j < |b| && b[j] == z;
  }

  lemma RecorteConEmpates(a: seq<Retiro>, b: seq<Retiro>, rs: set<Retiro>, r: Retiro)
    requires SonDeLasUltimas(a, rs) && Descendente(b) && SinRepetir(b) && Conjunto(a) <= Conjunto(b)
    requires r in rs + Conjunto(b) && r !in Recortar(b)
    ensures |Recortar(b)| == MAX_RETIRADAS && forall x <- Recortar(b) :: x.cuando >= r.cuando
  {
    var t := Recortar(b);
    if r in b {
      assert forall k :: 0 <= k < |t| ==> t[k] == b[k] && t[k] in t;
      var i :| 0 <= i < |b| && b[i] == r;
    } else {
      assert r !in Conjunto(a);
      CuantasSinRepetir(a);
      CuantasSinRepetir(b);
      MenosQue(Conjunto(a), Conjunto(b));
      forall x <- t ensures x.cuando >= r.cuando {
        if x !in a {
          var j := UnaQuedaFuera(a, b, x);
          var k :| 0 <= k < |t| && t[k] == x;
          assert b[k] == x && k < j;
        }
      }
    }
  }

  lemma UnLoteConEmpates(a: seq<Retiro>, rs: set<Retiro>, b: seq<Retiro>)
    requires SonDeLasUltimas(a, rs) && Unicas(rs + Validos(b))
    ensures SonDeLasUltimas(MasNuevos(a, b), rs + Validos(b))
  {
    assert Conjunto(a) + Validos(b) <= rs + Validos(b);
    PonerReune(a, b);
    OrdenadaSinRepetir(PonerRetiros(a, b));
    var s := Ordenar(PonerRetiros(a, b));
    assert rs + Conjunto(s) == rs + Validos(b);
    RecortesConEmpates(a, s, rs);
  }

  lemma RecortesConEmpates(a: seq<Retiro>, b: seq<Retiro>, rs: set<Retiro>)
    requires SonDeLasUltimas(a, rs) && Descendente(b) && SinRepetir(b) && Conjunto(a) <= Conjunto(b)
    ensures SonDeLasUltimas(Recortar(b), rs + Conjunto(b))
  {
    var t := Recortar(b);
    forall r <- rs + Conjunto(b) | r !in t
      ensures |t| == MAX_RETIRADAS && forall x <- t :: x.cuando >= r.cuando
    {
      RecorteConEmpates(a, b, rs, r);
    }
  }

  /** Whatever the dates: the store always holds newest tombstones, as many as fit, and none that
      it lacks is newer than one it has. */
  lemma {:induction false} SiempreDeLasUltimas(h: Huella, es: seq<Entrega>)
    requires Unicas(RetirosDe(es))
    ensures SonDeLasUltimas(Tras(h, es).retiradas, RetirosDe(es))
    decreases |es|
  {
    if |es| == 0 {
    } else {
      var fs, e := es[..|es| - 1], es[|es| - 1];
      assert RetirosDe(fs) <= RetirosDe(es);
      SiempreDeLasUltimas(h, fs);
      match e
      case Ofertas(_) =>
        assert RetirosDe(es) == RetirosDe(fs);
      case Retiros(ns) =>
        UnLoteConEmpates(Tras(h, fs).retiradas, RetirosDe(fs), ns);
    }
  }

  /** Two tombstones, each alone, in either order. */
  function EnOrden(h: Huella, r: Retiro, t: Retiro): seq<Retiro> {
    Tras(h, [Retiros([r]), Retiros([t])]).retiradas
  }

  /** Distinct dates and one tombstone per key are exactly what makes the order of two
      deliveries not matter. */
  lemma DosOrdenesIgualesSi(h: Huella, r: Retiro, t: Retiro)
    requires ConIds(r) && ConIds(t)
    ensures EnOrden(h, r, t) == EnOrden(h, t, r) <==> Fechadas({r, t})
  {
    DosEnOrden(h, r, t);
    DosEnOrden(h, t, r);
  }

  lemma DosEnOrden(h: Huella, r: Retiro, t: Retiro)
    requires ConIds(r) && ConIds(t)
    ensures EnOrden(h, r, t) == if MismaClave(r, t) then [r] else if t.cuando > r.cuando then [t, r] else [r, t]
  {
    var es := [Retiros([r]), Retiros([t])];
    assert es[..1] == [Retiros([r])] && es[..1][..0] == [];
    UnaAlFinal([], r);
    OrdenarDos(r, t);
    assert [] + [r] == [r];
    assert PonerRetiros([], [r]) == [r];
    assert Tras(h, []).retiradas == [];
    assert Tras(h, es[..1]) == Recibir(h, Tras(h, es[..1][..0]), es[..1][0]);
    assert Tras(h, es[..1]).retiradas == [r];
    assert Tras(h, es) == Recibir(h, Tras(h, es[..1]), Retiros([t]));
    UnaAlFinal([r], t);
    assert [r] + [t] == [r, t];
  }

  lemma OrdenarDos(r: Retiro, t: Retiro)
    ensures Ordenar([r]) == [r]
    ensures Ordenar([r, t]) == if t.cuando > r.cuando then [t, r] else [r, t]
  {
    assert [r][1..] == [] && [r, t][1..] == [t] && [t][1..] == [];
    assert Ordenar([t]) == [t];
  }

  lemma UnaAlFinal(a: seq<Retiro>, r: Retiro)
    requires ConIds(r)
    ensures PonerRetiros(a, [r]) == PonerRetiro(a, r)
  {
    assert [r][..0] == [];
    assert PonerRetiros(a, []) == a;
  }
}
