/** Which outputs pay an amount (`elegir_montos`): from the smallest up, at most eight. */
module Eleccion {
  import opened Base

  const MAXIMO := 8

  datatype Falla = MontoCero | NoAlcanza(suma: u64)

  /** The sort key (amount, index). */
  predicate Antes(montos: seq<u64>, i: nat, j: nat)
    requires i < |montos| && j < |montos|
  {
    montos[i] < montos[j] || (montos[i] == montos[j] && i <= j)
  }

  predicate Indices(montos: seq<u64>, s: seq<nat>) {
    forall k :: 0 <= k < |s| ==> s[k] < |montos|
  }

  function Insertar(montos: seq<u64>, i: nat, s: seq<nat>): (r: seq<nat>)
    requires i < |montos| && Indices(montos, s)
    ensures Indices(montos, r)
  {
    if |s| == 0 then [i] else if Antes(montos, i, s[0]) then [i] + s else [s[0]] + Insertar(montos, i, s[1..])
  }

  /** `orden.sort_by_key(|&i| (montos[i], i))` on the first `n` indices. */
  function Ordenados(montos: seq<u64>, n: nat): (r: seq<nat>)
    requires n <= |montos|
    ensures Indices(montos, r)
  {
    if n == 0 then [] else Insertar(montos, n - 1, Ordenados(montos, n - 1))
  }

  function SinCeros(montos: seq<u64>, s: seq<nat>): (r: seq<nat>)
    requires Indices(montos, s)
    ensures Indices(montos, r)
  {
    if |s| == 0 then []
    else
      var i := s[|s| - 1];
      SinCeros(montos, s[..|s| - 1]) + if montos[i] == 0 then [] else [i]
  }

  /** The outputs that hold something, from the smallest up. */
  function Chicas(montos: seq<u64>): (r: seq<nat>)
    ensures Indices(montos, r)
  {
    SinCeros(montos, Ordenados(montos, |montos|))
  }

  function Suma(montos: seq<u64>, s: seq<nat>): nat
    requires Indices(montos, s)
  {
    if |s| == 0 then 0 else Suma(montos, s[..|s| - 1]) + montos[s[|s| - 1]]
  }

  /** The shortest run of smallest outputs that covers the amount. */
  predicate Alcanza(montos: seq<u64>, necesita: u64, r: seq<nat>) {
    && 1 <= |r| <= MAXIMO && r <= Chicas(montos)
    && Suma(montos, r[..|r| - 1]) < necesita <= Suma(montos, r)
  }

  method ElegirMontos(montos: seq<u64>, necesita: u64) returns (r: Result<seq<nat>, Falla>)
    ensures r.Ok? ==> necesita > 0 && Alcanza(montos, necesita, r.valor)
    ensures necesita == 0 <==> r == Err(MontoCero)
    ensures r.Err? && necesita > 0 ==> r.error.NoAlcanza? && r.error.suma == Suma(montos, Primeras(montos)) < necesita
  {
    if necesita == 0 {
      return Err(MontoCero);
    }
    var orden := Ordenados(montos, |montos|);
    var suma: u64 := 0;
    var elegidos: seq<nat> := [];
    var j := 0;
    while j < |orden|
      invariant 0 <= j <= |orden| && elegidos == SinCeros(montos, orden[..j]) && |elegidos| < MAXIMO
      invariant suma == Suma(montos, elegidos) < necesita
    {
      var i := orden[j];
      UnaMira(montos, orden, j);
      j := j + 1;
      if montos[i] == 0 {
        continue;
      }
      UnaMas(montos, elegidos, i);
      assert SumaTope(suma, montos[i]) >= necesita <==> suma + montos[i] >= necesita;
      suma := SumaTope(suma, montos[i]);
      elegidos := elegidos + [i];
      if suma >= necesita {
        return Ok(elegidos);
      }
      if |elegidos| == MAXIMO {
        OchoSon(montos, elegidos);
        return Err(NoAlcanza(suma));
      }
    }
    assert orden[..j] == orden;
    assert elegidos == Primeras(montos);
    return Err(NoAlcanza(suma));
  }

  lemma UnaMira(montos: seq<u64>, s: seq<nat>, j: nat)
    requires Indices(montos, s) && j < |s|
    ensures SinCeros(montos, s[..j + 1]) == SinCeros(montos, s[..j]) + if montos[s[j]] == 0 then [] else [s[j]]
    ensures SinCeros(montos, s[..j + 1]) <= SinCeros(montos, s)
  {
    assert s[..j + 1][..j] == s[..j];
    PrefijoSinCeros(montos, s, j + 1);
  }

  lemma OchoSon(montos: seq<u64>, s: seq<nat>)
    requires s <= Chicas(montos) && |s| == MAXIMO
    ensures s == Primeras(montos)
  {
  }

  lemma UnaMas(montos: seq<u64>, s: seq<nat>, i: nat)
    requires Indices(montos, s) && i < |montos|
    ensures (s + [i])[..|s + [i]| - 1] == s
    ensures Indices(montos, s + [i]) && Suma(montos, s + [i]) == Suma(montos, s) + montos[i]
  {
    assert (s + [i])[..|s + [i]| - 1] == s;
  }

  lemma {:induction false} PrefijoSinCeros(montos: seq<u64>, s: seq<nat>, j: nat)
    requires Indices(montos, s) && j <= |s|
    ensures SinCeros(montos, s[..j]) <= SinCeros(montos, s)
    decreases |s| - j
  {
    if j == |s| {
      assert s[..j] == s;
    } else {
      PrefijoSinCeros(montos, s, j + 1);
      assert s[..j + 1][..j] == s[..j];
    }
  }

  /** The eight smallest, or all if there are fewer. */
  function Primeras(montos: seq<u64>): (r: seq<nat>)
    ensures Indices(montos, r)
  {
    if |Chicas(montos)| <= MAXIMO then Chicas(montos) else Chicas(montos)[..MAXIMO]
  }

  // ----- what the choice is

  ghost predicate Ordenada(montos: seq<u64>, s: seq<nat>) {
    Indices(montos, s) && forall i, j :: 0 <= i < j < |s| ==> Antes(montos, s[i], s[j]) && s[i] != s[j]
  }

  lemma {:induction false} InsertarEs(montos: seq<u64>, i: nat, s: seq<nat>)
    requires i < |montos| && Indices(montos, s)
    ensures forall x :: x in Insertar(montos, i, s) <==> x == i || x in s
  {
    if |s| == 0 {
    } else {
      assert s == [s[0]] + s[1..];
      if !Antes(montos, i, s[0]) {
        InsertarEs(montos, i, s[1..]);
      }
    }
  }

  lemma Delante(montos: seq<u64>, x: nat, s: seq<nat>)
    requires x < |montos| && Ordenada(montos, s) && forall y <- s :: Antes(montos, x, y) && x != y
    ensures Ordenada(montos, [x] + s)
  {
    assert forall k :: 0 <= k < |s| ==> s[k] in s;
  }

  lemma {:induction false} InsertarOrdena(montos: seq<u64>, i: nat, s: seq<nat>)
    requires i < |montos| && Ordenada(montos, s) && i !in s
    ensures Ordenada(montos, Insertar(montos, i, s))
  {
    if |s| == 0 {
    } else {
      InsertarEs(montos, i, s[1..]);
      if Antes(montos, i, s[0]) {
        Delante(montos, i, s);
      } else {
        InsertarOrdena(montos, i, s[1..]);
        Delante(montos, s[0], Insertar(montos, i, s[1..]));
      }
    }
  }

  lemma {:induction false} OrdenadosTodos(montos: seq<u64>, n: nat)
    requires n <= |montos|
    ensures forall x: nat :: x in Ordenados(montos, n) <==> x < n
  {
    if n == 0 {
    } else {
      OrdenadosTodos(montos, n - 1);
      InsertarEs(montos, n - 1, Ordenados(montos, n - 1));
    }
  }

  lemma {:induction false} OrdenadosSon(montos: seq<u64>, n: nat)
    requires n <= |montos|
    ensures Ordenada(montos, Ordenados(montos, n))
  {
    if n == 0 {
      OrdenadosCero(montos);
    } else {
      OrdenadosSon(montos, n - 1);
      OrdenadosMas(montos, n - 1, n);
    }
  }

  lemma OrdenadosCero(montos: seq<u64>)
    ensures Ordenada(montos, Ordenados(montos, 0))
  {
    assert Ordenados(montos, 0) == [];
  }

  lemma OrdenadosMas(montos: seq<u64>, i: nat, n: nat)
    requires i + 1 == n <= |montos| && Ordenada(montos, Ordenados(montos, i))
    ensures Ordenada(montos, Ordenados(montos, n))
  {
    OrdenadosTodos(montos, i);
    InsertarOrdena(montos, i, Ordenados(montos, i));
  }

  lemma {:induction false} SinCerosSon(montos: seq<u64>, s: seq<nat>)
    requires Ordenada(montos, s)
    ensures Ordenada(montos, SinCeros(montos, s))
    ensures forall x :: x in SinCeros(montos, s) <==> x in s && montos[x] != 0
  {
    if |s| == 0 {
    } else {
      var b, i := s[..|s| - 1], s[|s| - 1];
      assert s == b + [i];
      SinCerosSon(montos, b);
      var t := SinCeros(montos, b);
      forall k | 0 <= k < |t| ensures Antes(montos, t[k], i) && t[k] != i {
        assert t[k] in t && t[k] in b;
      }
    }
  }

  /** A chosen list has no output twice and none that is empty, and every other output that
      holds something is at least as big as each chosen one. */
  lemma LasMasChicas(montos: seq<u64>, necesita: u64, r: seq<nat>, i: nat, x: nat)
    requires Alcanza(montos, necesita, r) && i < |r| && x < |montos| && montos[x] > 0
    ensures r[i] < |montos| && montos[r[i]] > 0
    ensures forall j :: 0 <= j < |r| && j != i ==> r[j] != r[i]
    ensures x in r || montos[x] >= montos[r[i]]
  {
    OrdenadosSon(montos, |montos|);
    OrdenadosTodos(montos, |montos|);
    var c := Chicas(montos);
    SinCerosSon(montos, Ordenados(montos, |montos|));
    assert r[i] == c[i] && c[i] in c;
    assert x in c;
    var k :| 0 <= k < |c| && c[k] == x;
    assert k < |r| ==> r[k] == x;
    assert k >= |r| ==> Antes(montos, c[i], c[k]);
  }

  lemma {:induction false} SumaCrece(montos: seq<u64>, s: seq<nat>, k: nat)
    requires Indices(montos, s) && k <= |s|
    ensures Suma(montos, s[..k]) <= Suma(montos, s)
    decreases |s|
  {
    if k == |s| {
      assert s[..k] == s;
    } else {
      SumaCrece(montos, s[..|s| - 1], k);
      assert s[..|s| - 1][..k] == s[..k];
    }
  }

  /** There is a choice exactly when the eight smallest outputs cover the amount. */
  lemma HayEleccionSi(montos: seq<u64>, necesita: u64)
    requires necesita > 0
    ensures (exists r :: Alcanza(montos, necesita, r)) <==> Suma(montos, Primeras(montos)) >= necesita
  {
    var p := Primeras(montos);
    if r :| Alcanza(montos, necesita, r) {
      assert p[..|r|] == r;
      SumaCrece(montos, p, |r|);
    }
    if Suma(montos, p) >= necesita {
      PrimerCorte(montos, necesita, p);
    }
  }

  lemma {:induction false} PrimerCorte(montos: seq<u64>, necesita: u64, p: seq<nat>)
    requires necesita > 0 && p <= Primeras(montos) && Suma(montos, p) >= necesita
    ensures exists r :: Alcanza(montos, necesita, r)
    decreases |p|
  {
    var q := p[..|p| - 1];
    if Suma(montos, q) >= necesita {
      PrimerCorte(montos, necesita, q);
    } else {
      assert Alcanza(montos, necesita, p);
    }
  }

  /** So a wallet with eight crumbs cannot pay what one bigger output would cover alone,
      whatever the other amounts are. */
  lemma OchoMigasTapanLaGrande(montos: seq<u64>, miga: u64, necesita: u64)
    requires |montos| > MAXIMO && 0 < miga && 8 * miga < necesita
    requires forall k :: 0 <= k < MAXIMO ==> montos[k] == miga
    requires forall k :: MAXIMO <= k < |montos| ==> montos[k] >= necesita
    ensures !exists r :: Alcanza(montos, necesita, r)
  {
    HayEleccionSi(montos, necesita);
    MigasPrimero(montos, |montos|);
    var c := Chicas(montos);
    SinCerosIgual(montos, Ordenados(montos, |montos|));
    SumaIgual(montos, Primeras(montos), miga);
  }

  /** With the crumbs first, the sorted list begins with them. */
  lemma {:induction false} MigasPrimero(montos: seq<u64>, n: nat)
    requires n <= |montos|
    requires forall i, j :: 0 <= i < MAXIMO && i < j < |montos| ==> montos[i] <= montos[j]
    ensures |Ordenados(montos, n)| == n
    ensures forall k :: 0 <= k < n && k < MAXIMO ==> Ordenados(montos, n)[k] == k
  {
    if n == 0 {
    } else {
      MigasPrimero(montos, n - 1);
      MigaDetras(montos, n - 1, Ordenados(montos, n - 1));
    }
  }

  lemma MigaDetras(montos: seq<u64>, i: nat, s: seq<nat>)
    requires i < |montos| && Indices(montos, s) && |s| == i
    requires forall k, j :: 0 <= k < MAXIMO && k < j < |montos| ==> montos[k] <= montos[j]
    requires forall k :: 0 <= k < i && k < MAXIMO ==> s[k] == k
    ensures |Insertar(montos, i, s)| == i + 1
    ensures forall k :: 0 <= k <= i && k < MAXIMO ==> Insertar(montos, i, s)[k] == k
  {
    InsertarTras(montos, i, s, if i < MAXIMO then i else MAXIMO);
  }

  lemma {:induction false} InsertarTras(montos: seq<u64>, i: nat, s: seq<nat>, p: nat)
    requires i < |montos| && Indices(montos, s) && p <= |s|
    requires forall k :: 0 <= k < p ==> !Antes(montos, i, s[k])
    ensures |Insertar(montos, i, s)| == |s| + 1
    ensures forall k :: 0 <= k < p ==> Insertar(montos, i, s)[k] == s[k]
    ensures p == |s| ==> Insertar(montos, i, s)[p] == i
  {
    if |s| > 0 && !Antes(montos, i, s[0]) {
      InsertarTras(montos, i, s[1..], if p == 0 then 0 else p - 1);
    }
  }

  lemma {:induction false} SinCerosIgual(montos: seq<u64>, s: seq<nat>)
    requires Indices(montos, s) && forall k :: 0 <= k < |s| ==> montos[s[k]] != 0
    ensures SinCeros(montos, s) == s
  {
    if |s| == 0 {
    } else {
      var b, i := s[..|s| - 1], s[|s| - 1];
      assert forall k :: 0 <= k < |b| ==> b[k] == s[k];
      SinCerosIgual(montos, b);
      assert b + [i] == s;
    }
  }

  lemma {:induction false} SumaIgual(montos: seq<u64>, s: seq<nat>, m: nat)
    requires Indices(montos, s) && forall k :: 0 <= k < |s| ==> montos[s[k]] == m
    ensures Suma(montos, s) == |s| * m
  {
    if |s| == 0 {
    } else {
      SumaIgual(montos, s[..|s| - 1], m);
      assert |s| * m == (|s| - 1) * m + m;
    }
  }
}
