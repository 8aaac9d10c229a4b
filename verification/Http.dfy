/** The body of an HTTP/1.1 answer (`cuerpo_http`), with the chunked coding of section 7.1
    of RFC 9112. */
module Http {
  import opened Base
  import opened Texto
  import opened Utf8

  const CR: byte := 13
  const LF: byte := 10
  const CRLF: seq<byte> := [CR, LF]

  datatype Falla =
    Incompleta | Codigo(texto: string) | ChunkIncompleto | ChunkIlegible | ChunkCortado | NoEsTexto

  // ----- finding line ends

  predicate CrlfEn(s: seq<byte>, k: int) {
    0 <= k < |s| - 1 && s[k] == CR && s[k + 1] == LF
  }

  /** `windows(2).position(|w| w == b"\r\n")`. */
  function PrimerCrlf(s: seq<byte>): (r: Option<nat>)
    ensures r.Some? ==> CrlfEn(s, r.value) && forall j :: 0 <= j < r.value ==> !CrlfEn(s, j)
    ensures r.None? ==> forall j :: !CrlfEn(s, j)
  {
    if |s| < 2 then None
    else if CrlfEn(s, 0) then Some(0)
    else match PrimerCrlf(s[1..])
      case None =>
        assert forall j :: CrlfEn(s, j) ==> CrlfEn(s[1..], j - 1);
        None
      case Some(k) =>
        assert forall j :: 0 < j && CrlfEn(s, j) ==> CrlfEn(s[1..], j - 1);
        Some(k + 1)
  }

  /** `windows(4).position(|w| w == b"\r\n\r\n")`. */
  function FinCabecera(s: seq<byte>): (r: Option<nat>)
    ensures r.Some? ==> r.value + 4 <= |s|
  {
    if |s| < 4 then None
    else if CrlfEn(s, 0) && CrlfEn(s, 2) then Some(0)
    else match FinCabecera(s[1..])
      case None => None
      case Some(k) => Some(k + 1)
  }

  // ----- the status line and the headers

  function Minuscula(c: char): char {
    if 'A' <= c <= 'Z' then c - 'A' + 'a' else c
  }

  function Minusculas(s: string): string {
    seq(|s|, k requires 0 <= k < |s| => Minuscula(s[k]))
  }

  predicate Contiene(s: string, p: string) {
    |p| <= |s| && (p <= s || Contiene(s[1..], p))
  }

  /** The first word, from the first character that is not a space. */
  function Palabra(s: string): string {
    if |s| == 0 || EsEspacio(s[0]) then "" else [s[0]] + Palabra(s[1..])
  }

  /** `lines().next()` and `split_whitespace().nth(1)`, or "" when there are fewer words. */
  function CodigoDe(cab: string): string {
    var linea := cab[..Primero(cab, '\n')];
    var desde := SinInicio(linea);
    PalabraCabe(desde);
    Palabra(SinInicio(desde[|Palabra(desde)|..]))
  }

  lemma {:induction false} PalabraCabe(s: string)
    ensures |Palabra(s)| <= |s|
  {
    if |s| > 0 && !EsEspacio(s[0]) {
      PalabraCabe(s[1..]);
    }
  }

  // ----- the size of a chunk

  predicate EsHex(c: char) {
    EsDigito(c) || 'a' <= c <= 'f' || 'A' <= c <= 'F'
  }

  predicate SoloHex(s: string) {
    forall k :: 0 <= k < |s| ==> EsHex(s[k])
  }

  function ValorHexCifra(c: char): (d: nat)
    requires EsHex(c)
  {
    if EsDigito(c) then c as int - '0' as int
    else if 'a' <= c <= 'f' then c as int - 'a' as int + 10
    else c as int - 'A' as int + 10
  }

  function ValorHex(s: string): nat
    requires SoloHex(s)
  {
    if |s| == 0 then 0 else 16 * ValorHex(s[..|s| - 1]) + ValorHexCifra(s[|s| - 1])
  }

  /** `usize::from_str_radix(s, 16)`: one leading `+` is allowed, overflow is refused. */
  function LeerHex(s: string): Option<nat> {
    var t := if |s| > 0 && s[0] == '+' then s[1..] else s;
    if |t| == 0 || !SoloHex(t) || ValorHex(t) > U64_MAX then None else Some(ValorHex(t))
  }

  /** The size in a chunk line, up to its first `;`. */
  function Tamano(linea: string): Option<nat> {
    LeerHex(Podado(linea[..Primero(linea, ';')]))
  }

  // ----- the chunked body

  function Anteponer(a: seq<byte>, r: Result<seq<byte>, Falla>): Result<seq<byte>, Falla> {
    match r
    case Ok(b) => Ok(a + b)
    case Err(e) => Err(e)
  }

  /** What the chunk loop makes of the bytes it has not read yet. */
  function Decodificar(r: seq<byte>): Result<seq<byte>, Falla>
    decreases |r|
  {
    match PrimerCrlf(r)
    case None => Err(ChunkIncompleto)
    case Some(nl) =>
      match Tamano(Tolerante(r[..nl]))
      case None => Err(ChunkIlegible)
      case Some(t) => TrasTamano(r[nl + 2..], t)
  }

  /** The same, once a size line announced `t` bytes. */
  function TrasTamano(q: seq<byte>, t: nat): Result<seq<byte>, Falla>
    decreases |q|
  {
    if t == 0 then Ok([])
    else if t > |q| then Err(ChunkCortado)
    else if t + 2 > |q| then Ok(q[..t])
    else Anteponer(q[..t], Decodificar(q[t + 2..]))
  }

  function Leida(crudo: seq<byte>): Result<string, Falla> {
    match FinCabecera(crudo)
    case None => Err(Incompleta)
    case Some(fin) =>
      var cab := Minusculas(Tolerante(crudo[..fin]));
      if CodigoDe(cab) != "200" then Err(Codigo(CodigoDe(cab)))
      else
        var resto := crudo[fin + 4..];
        var cuerpo := if Contiene(cab, TROCEADO) then Decodificar(resto) else Ok(resto);
        match cuerpo
        case Err(e) => Err(e)
        case Ok(b) => if Estricto(b).None? then Err(NoEsTexto) else Ok(Estricto(b).value)
  }

  const TROCEADO := "transfer-encoding: chunked"

  /** The whole decoder: it ends, and never reads out of range, on any bytes; and of every 200
      answer that carries a text, whole or in chunks, it gives that text. */
  method CuerpoHttp(crudo: seq<byte>) returns (r: Result<string, Falla>)
    ensures r == Leida(crudo)
    ensures forall texto, partes, cab, cola :: EnTrozos(crudo, texto, partes, cab, cola) ==> r == Ok(texto)
    ensures forall texto, cab :: EnUnaPieza(crudo, texto, cab) ==> r == Ok(texto)
  {
    forall texto, partes, cab, cola | EnTrozos(crudo, texto, partes, cab, cola) ensures Leida(crudo) == Ok(texto) {
      TextoEnTrozos(texto, partes, cab, cola);
    }
    forall texto, cab | EnUnaPieza(crudo, texto, cab) ensures Leida(crudo) == Ok(texto) {
      TextoEntero(texto, cab);
    }
    var fin := FinCabecera(crudo);
    if fin.None? {
      return Err(Incompleta);
    }
    var cab := Minusculas(Tolerante(crudo[..fin.value]));
    var codigo := CodigoDe(cab);
    if codigo != "200" {
      return Err(Codigo(codigo));
    }
    var cuerpo := crudo[fin.value + 4..];
    if Contiene(cab, TROCEADO) {
      var d := JuntarTrozos(cuerpo);
      if d.Err? {
        return Err(d.error);
      }
      cuerpo := d.valor;
    }
    var texto := Estricto(cuerpo);
    return if texto.None? then Err(NoEsTexto) else Ok(texto.value);
  }

  /** The chunk loop. */
  method JuntarTrozos(resto: seq<byte>) returns (r: Result<seq<byte>, Falla>)
    ensures r == Decodificar(resto)
  {
    var salida: seq<byte> := [];
    var i := 0;
    Empieza(resto);
    while i <= |resto|
      invariant 0 <= i
      invariant Decodificar(resto) == Progreso(resto, salida, i)
      decreases |resto| - i
    {
      var v;
      v, salida, i := UnaVuelta(resto, salida, i);
      if v.Err? {
        return Err(v.error);
      }
      if v.valor {
        break;
      }
    }
    r := Ok(salida);
  }

  /** One turn of the loop: whether it was the last, the bytes so far, the next position. */
  method UnaVuelta(resto: seq<byte>, antes: seq<byte>, i: nat)
      returns (v: Result<bool, Falla>, salida: seq<byte>, sigue: nat)
    requires i <= |resto|
    ensures v.Err? ==> Progreso(resto, antes, i) == Err(v.error)
    ensures v == Ok(true) ==> Progreso(resto, antes, i) == Ok(salida)
    ensures v == Ok(false) ==> i < sigue && Progreso(resto, antes, i) == Progreso(resto, salida, sigue)
  {
    var j, tam := LeerLinea(resto, i, antes);
    if tam.Err? {
      return Err(tam.error), antes, i;
    }
    v, salida, sigue := LeerDatos(resto, antes, j, tam.valor);
  }

  /** The `t` bytes at `j`, after a size line. */
  method LeerDatos(resto: seq<byte>, antes: seq<byte>, j: nat, t: nat)
      returns (v: Result<bool, Falla>, salida: seq<byte>, sigue: nat)
    requires j <= |resto|
    ensures var p := Anteponer(antes, TrasTamano(resto[j..], t));
      && (v.Err? ==> p == Err(v.error))
      && (v == Ok(true) ==> p == Ok(salida))
      && (v == Ok(false) ==> j < sigue && p == Progreso(resto, salida, sigue))
  {
    if t == 0 {
      NadaDespues(antes);
      return Ok(true), antes, j;
    }
    var finChunk := j + t;
    if finChunk > |resto| {
      return Err(ChunkCortado), antes, j;
    }
    Avanza(resto, antes, j, t, finChunk);
    return Ok(false), antes + resto[j..finChunk], finChunk + 2;
  }

  /** The size line at `i`: where the bytes after it start, and how many it announces. */
  method LeerLinea(resto: seq<byte>, i: nat, ghost antes: seq<byte>) returns (j: nat, tam: Result<nat, Falla>)
    requires i <= |resto|
    ensures tam.Ok? ==> i < j <= |resto|
    ensures tam.Err? ==> Progreso(resto, antes, i) == Err(tam.error)
    ensures tam.Ok? ==> Progreso(resto, antes, i) == Anteponer(antes, TrasTamano(resto[j..], tam.valor))
  {
    var r := resto[i..];
    var nl := PrimerCrlf(r);
    if nl.None? {
      return 0, Err(ChunkIncompleto);
    }
    j := i + nl.value + 2;
    assert r[nl.value + 2..] == resto[j..];
    var n := Tamano(Tolerante(r[..nl.value]));
    tam := if n.None? then Err(ChunkIlegible) else Ok(n.value);
  }

  lemma NadaAntes(r: Result<seq<byte>, Falla>)
    ensures Anteponer([], r) == r
  {
    if r.Ok? {
      assert [] + r.valor == r.valor;
    }
  }

  lemma NadaDespues(a: seq<byte>)
    ensures Anteponer(a, Ok([])) == Ok(a)
  {
    assert a + [] == a;
  }

  lemma AnteponerDosVeces(a: seq<byte>, b: seq<byte>, r: Result<seq<byte>, Falla>)
    ensures Anteponer(a, Anteponer(b, r)) == Anteponer(a + b, r)
  {
    if r.Ok? {
      Asociada(a, b, r.valor);
    }
  }

  /** The answer, when `salida` is decoded and the next line starts at `i`. */
  function Progreso(resto: seq<byte>, salida: seq<byte>, i: nat): Result<seq<byte>, Falla> {
    if i <= |resto| then Anteponer(salida, Decodificar(resto[i..])) else Ok(salida)
  }

  lemma Empieza(resto: seq<byte>)
    ensures Decodificar(resto) == Progreso(resto, [], 0)
  {
    assert resto[0..] == resto;
    NadaAntes(Decodificar(resto));
  }

  lemma Avanza(resto: seq<byte>, salida: seq<byte>, j: nat, t: nat, fin: nat)
    requires 0 < t && j + t == fin <= |resto|
    ensures Anteponer(salida, TrasTamano(resto[j..], t)) == Progreso(resto, salida + resto[j..fin], fin + 2)
  {
    assert resto[j..][..t] == resto[j..fin];
    if fin + 2 <= |resto| {
      assert resto[j..][t + 2..] == resto[fin + 2..];
      AnteponerDosVeces(salida, resto[j..fin], Decodificar(resto[fin + 2..]));
    }
  }

  // ----- what is accepted

  /** One chunk as it travels: its size line, its bytes, and the two bytes after them,
      which the decoder skips without looking. */
  datatype Trozo = Trozo(linea: seq<byte>, datos: seq<byte>, cierre: seq<byte>)

  /** A line that announces `n` bytes. */
  predicate Anuncia(linea: seq<byte>, n: nat) {
    (forall k :: 0 <= k < |linea| ==> !CrlfEn(linea, k)) && Tamano(Tolerante(linea)) == Some(n)
  }

  predicate Correcto(t: Trozo) {
    |t.datos| > 0 && |t.cierre| == 2 && Anuncia(t.linea, |t.datos|)
  }

  predicate Correctos(ts: seq<Trozo>) {
    forall k :: 0 <= k < |ts| ==> Correcto(ts[k])
  }

  /** The bytes of chunks, with whatever comes after them. */
  function Enviados(ts: seq<Trozo>, cola: seq<byte>): seq<byte> {
    if |ts| == 0 then cola
    else ts[0].linea + CRLF + (ts[0].datos + ts[0].cierre + Enviados(ts[1..], cola))
  }

  function Datos(ts: seq<Trozo>): seq<byte> {
    if |ts| == 0 then [] else ts[0].datos + Datos(ts[1..])
  }

  /** Chunks, a line that announces nothing more, and any trailers. */
  ghost predicate Completa(r: seq<byte>, ts: seq<Trozo>, ultima: seq<byte>, cola: seq<byte>) {
    Correctos(ts) && Anuncia(ultima, 0) && r == Enviados(ts, ultima + CRLF + cola)
  }

  /** Chunks, then one whose bytes all came but whose two closing bytes did not. */
  ghost predicate Cortada(r: seq<byte>, ts: seq<Trozo>, linea: seq<byte>, datos: seq<byte>, cola: seq<byte>) {
    && Correctos(ts) && |datos| > 0 && |cola| < 2 && Anuncia(linea, |datos|)
    && r == Enviados(ts, linea + CRLF + (datos + cola))
  }

  lemma CrlfTras(linea: seq<byte>, cola: seq<byte>)
    requires forall k :: 0 <= k < |linea| ==> !CrlfEn(linea, k)
    ensures PrimerCrlf(linea + CRLF + cola) == Some(|linea|)
  {
    var s := linea + CRLF + cola;
    assert s[|linea|] == CR && s[|linea| + 1] == LF;
    assert CrlfEn(s, |linea|);
    assert forall k :: 0 <= k < |linea| && CrlfEn(s, k) ==> CrlfEn(linea, k);
  }

  lemma TrasLinea(linea: seq<byte>, n: nat, cola: seq<byte>)
    requires Anuncia(linea, n)
    ensures Decodificar(linea + CRLF + cola) == TrasTamano(cola, n)
  {
    var r := linea + CRLF + cola;
    CrlfTras(linea, cola);
    assert r[..|linea|] == linea && r[|linea| + 2..] == cola;
  }

  lemma TrasDatos(datos: seq<byte>, cierre: seq<byte>, cola: seq<byte>)
    requires |datos| > 0 && |cierre| == 2
    ensures TrasTamano(datos + cierre + cola, |datos|) == Anteponer(datos, Decodificar(cola))
  {
    var q := datos + cierre + cola;
    assert q[..|datos|] == datos && q[|datos| + 2..] == cola;
  }

  /** Chunks in front of anything add their bytes and nothing else. */
  lemma {:induction false} EnviadosDan(ts: seq<Trozo>, cola: seq<byte>)
    requires Correctos(ts)
    ensures Decodificar(Enviados(ts, cola)) == Anteponer(Datos(ts), Decodificar(cola))
  {
    if |ts| == 0 {
      NadaAntes(Decodificar(cola));
    } else {
      var t, resto := ts[0], Enviados(ts[1..], cola);
      TrasLinea(t.linea, |t.datos|, t.datos + t.cierre + resto);
      TrasDatos(t.datos, t.cierre, resto);
      EnviadosDan(ts[1..], cola);
      AnteponerDosVeces(t.datos, Datos(ts[1..]), Decodificar(cola));
    }
  }

  lemma CompletaDa(r: seq<byte>, ts: seq<Trozo>, ultima: seq<byte>, cola: seq<byte>)
    requires Completa(r, ts, ultima, cola)
    ensures Decodificar(r) == Ok(Datos(ts))
  {
    EnviadosDan(ts, ultima + CRLF + cola);
    TrasLinea(ultima, 0, cola);
    NadaDespues(Datos(ts));
  }

  lemma CortadaDa(r: seq<byte>, ts: seq<Trozo>, linea: seq<byte>, datos: seq<byte>, cola: seq<byte>)
    requires Cortada(r, ts, linea, datos, cola)
    ensures Decodificar(r) == Ok(Datos(ts) + datos)
  {
    EnviadosDan(ts, linea + CRLF + (datos + cola));
    TrasLinea(linea, |datos|, datos + cola);
    assert (datos + cola)[..|datos|] == datos;
  }

  ghost predicate Entera(r: seq<byte>, b: seq<byte>) {
    exists ts, ultima, cola :: Completa(r, ts, ultima, cola) && b == Datos(ts)
  }

  ghost predicate SinCierre(r: seq<byte>, b: seq<byte>) {
    exists ts, linea, datos, cola :: Cortada(r, ts, linea, datos, cola) && b == Datos(ts) + datos
  }

  /** What is accepted and as what: a complete coding, or one that stops just before the
      two bytes that close a chunk. The second is a stream cut short that is taken for a
      whole one. */
  lemma {:induction false} SeAceptaSi(r: seq<byte>, b: seq<byte>)
    ensures Decodificar(r) == Ok(b) <==> Entera(r, b) || SinCierre(r, b)
    decreases |r|
  {
    if Decodificar(r) == Ok(b) {
      Aceptada(r, b);
    }
    if Entera(r, b) {
      var ts, ultima, cola :| Completa(r, ts, ultima, cola) && b == Datos(ts);
      CompletaDa(r, ts, ultima, cola);
    }
    if SinCierre(r, b) {
      var ts, linea, datos, cola :| Cortada(r, ts, linea, datos, cola) && b == Datos(ts) + datos;
      CortadaDa(r, ts, linea, datos, cola);
    }
  }

  lemma PrimeraLinea(r: seq<byte>, nl: nat, n: nat) returns (linea: seq<byte>, q: seq<byte>)
    requires PrimerCrlf(r) == Some(nl) && Tamano(Tolerante(r[..nl])) == Some(n)
    ensures linea == r[..nl] && q == r[nl + 2..] && Anuncia(linea, n) && r == linea + CRLF + q
  {
    linea, q := r[..nl], r[nl + 2..];
    PartidaEn(r, nl, linea, q);
  }

  lemma PartidaEn(r: seq<byte>, nl: nat, linea: seq<byte>, q: seq<byte>)
    requires CrlfEn(r, nl) && (forall j :: 0 <= j < nl ==> !CrlfEn(r, j)) && linea == r[..nl] && q == r[nl + 2..]
    ensures (forall k :: 0 <= k < |linea| ==> !CrlfEn(linea, k)) && r == linea + CRLF + q
  {
    assert forall k :: CrlfEn(linea, k) ==> CrlfEn(r, k);
    assert r == linea + [r[nl], r[nl + 1]] + q;
  }

  lemma {:induction false} Aceptada(r: seq<byte>, b: seq<byte>)
    requires Decodificar(r) == Ok(b)
    ensures Entera(r, b) || SinCierre(r, b)
    decreases |r|
  {
    var nl := PrimerCrlf(r).value;
    var n := Tamano(Tolerante(r[..nl])).value;
    var linea, q := PrimeraLinea(r, nl, n);
    if n == 0 {
      assert Completa(r, [], linea, q);
    } else if n + 2 > |q| {
      AceptadaCortada(linea, q, n);
    } else {
      var cola := q[n + 2..];
      Cortar(q, n);
      var d := Decodificar(cola).valor;
      Aceptada(cola, d);
      UnTrozoMas(r, Trozo(linea, q[..n], q[n..n + 2]), cola, d);
    }
  }

  lemma AceptadaCortada(linea: seq<byte>, q: seq<byte>, n: nat)
    requires Anuncia(linea, n) && 0 < n <= |q| < n + 2
    ensures SinCierre(linea + CRLF + q, q[..n])
  {
    assert q == q[..n] + q[n..];
    assert [] + q[..n] == q[..n];
    assert Cortada(linea + CRLF + q, [], linea, q[..n], q[n..]);
  }

  lemma Asociada(a: seq<byte>, b: seq<byte>, c: seq<byte>)
    ensures a + (b + c) == a + b + c
  {
  }

  lemma Cortar(q: seq<byte>, n: nat)
    requires n + 2 <= |q|
    ensures q == q[..n] + q[n..n + 2] + q[n + 2..]
  {
  }

  lemma UnTrozoMas(r: seq<byte>, t: Trozo, cola: seq<byte>, d: seq<byte>)
    requires Correcto(t) && r == t.linea + CRLF + (t.datos + t.cierre + cola)
    requires Entera(cola, d) || SinCierre(cola, d)
    ensures Entera(r, t.datos + d) || SinCierre(r, t.datos + d)
  {
    if Entera(cola, d) {
      var ts, ultima, fin :| Completa(cola, ts, ultima, fin) && d == Datos(ts);
      UnoDelante(t, ts, ultima + CRLF + fin);
      assert Completa(r, [t] + ts, ultima, fin);
    } else {
      UnTrozoMasSinCierre(r, t, cola, d);
    }
  }

  lemma UnoDelante(t: Trozo, ts: seq<Trozo>, fin: seq<byte>)
    ensures Enviados([t] + ts, fin) == t.linea + CRLF + (t.datos + t.cierre + Enviados(ts, fin))
    ensures Datos([t] + ts) == t.datos + Datos(ts)
    ensures Correcto(t) && Correctos(ts) ==> Correctos([t] + ts)
  {
    assert ([t] + ts)[1..] == ts;
  }

  lemma UnTrozoMasSinCierre(r: seq<byte>, t: Trozo, cola: seq<byte>, d: seq<byte>)
    requires Correcto(t) && r == t.linea + CRLF + (t.datos + t.cierre + cola)
    requires SinCierre(cola, d)
    ensures SinCierre(r, t.datos + d)
  {
    var ts, linea, datos, fin :| Cortada(cola, ts, linea, datos, fin) && d == Datos(ts) + datos;
    UnoDelante(t, ts, linea + CRLF + (datos + fin));
    Asociada(t.datos, Datos(ts), datos);
    assert Cortada(r, [t] + ts, linea, datos, fin);
  }

  // ----- what a server sends

  function CifraHex(d: nat): (c: char)
    requires d < 16
    ensures EsHex(c) && ValorHexCifra(c) == d && !EsEspacio(c) && c != ';' && c as int < 0x80
  {
    "0123456789abcdef"[d]
  }

  function Hex(n: nat): (s: string)
    ensures |s| > 0 && SoloHex(s)
    ensures forall k :: 0 <= k < |s| ==> !EsEspacio(s[k]) && s[k] != ';' && s[k] != '\r' && s[k] as int < 0x80
  {
    if n < 16 then [CifraHex(n)] else Hex(n / 16) + [CifraHex(n % 16)]
  }

  lemma {:induction false} ValorDeHex(n: nat)
    ensures ValorHex(Hex(n)) == n
  {
    if n < 16 {
    } else {
      ValorDeHex(n / 16);
      assert Hex(n)[..|Hex(n)| - 1] == Hex(n / 16);
    }
  }

  lemma {:induction false} BytesAscii(s: string)
    requires forall k :: 0 <= k < |s| ==> s[k] as int < 0x80
    ensures |Bytes(s)| == |s| && forall k :: 0 <= k < |s| ==> Bytes(s)[k] as int == s[k] as int
  {
    if |s| == 0 {
    } else {
      BytesAscii(s[1..]);
    }
  }

  lemma HexTamano(n: u64)
    ensures Tamano(Hex(n)) == Some(n)
  {
    var h := Hex(n);
    ValorDeHex(n);
    PodadoIgual(h);
    assert Primero(h, ';') == |h| && h[..|h|] == h;
    assert h[0] != '+';
  }

  lemma HexAnuncia(n: u64)
    ensures Anuncia(Bytes(Hex(n)), n)
  {
    HexTamano(n);
    BytesIdaYVuelta(Hex(n));
    BytesAscii(Hex(n));
  }

  function Unidas(partes: seq<seq<byte>>): seq<byte> {
    if |partes| == 0 then [] else partes[0] + Unidas(partes[1..])
  }

  ghost predicate Partes(partes: seq<seq<byte>>) {
    forall k :: 0 <= k < |partes| ==> 0 < |partes[k]| <= U64_MAX
  }

  function Troceado(partes: seq<seq<byte>>): seq<Trozo> {
    if |partes| == 0 then []
    else [Trozo(Bytes(Hex(|partes[0]|)), partes[0], CRLF)] + Troceado(partes[1..])
  }

  /** The coding of section 7.1: each part behind its size in hexadecimal, then a zero size. */
  function CuerpoTroceado(partes: seq<seq<byte>>, trailers: seq<byte>): seq<byte> {
    Enviados(Troceado(partes), Bytes(Hex(0)) + CRLF + trailers)
  }

  lemma {:induction false} TroceadoVale(partes: seq<seq<byte>>)
    requires Partes(partes)
    ensures Correctos(Troceado(partes)) && Datos(Troceado(partes)) == Unidas(partes)
  {
    if |partes| == 0 {
    } else {
      HexAnuncia(|partes[0]|);
      TroceadoVale(partes[1..]);
      var t := Trozo(Bytes(Hex(|partes[0]|)), partes[0], CRLF);
      UnoDelante(t, Troceado(partes[1..]), []);
    }
  }

  const CRLFCRLF: seq<byte> := [CR, LF, CR, LF]

  /** A header block: the blank line that ends it is not inside it. */
  predicate Cabecera(cab: seq<byte>) {
    forall k :: 0 <= k < |cab| ==> !(CrlfEn(cab + CRLFCRLF, k) && CrlfEn(cab + CRLFCRLF, k + 2))
  }

  lemma {:induction false} FinDe(cab: seq<byte>, s: seq<byte>, resto: seq<byte>)
    requires Cabecera(cab) && s == cab + CRLFCRLF + resto
    ensures FinCabecera(s) == Some(|cab|)
  {
    var base := cab + CRLFCRLF;
    if |cab| == 0 {
    } else {
      assert !(CrlfEn(base, 0) && CrlfEn(base, 2));
      assert forall k :: 0 <= k < 4 ==> s[k] == base[k];
      var menos := cab[1..] + CRLFCRLF;
      assert forall k :: CrlfEn(menos, k) ==> CrlfEn(base, k + 1);
      FinDe(cab[1..], s[1..], resto);
    }
  }

  /** The answer `crudo` carries `texto` in the given parts. */
  ghost predicate EnTrozos(crudo: seq<byte>, texto: string, partes: seq<seq<byte>>, cab: seq<byte>, cola: seq<byte>) {
    && Partes(partes) && Unidas(partes) == Bytes(texto)
    && Cabecera(cab) && CodigoDe(Minusculas(Tolerante(cab))) == "200"
    && Contiene(Minusculas(Tolerante(cab)), TROCEADO)
    && crudo == cab + CRLFCRLF + CuerpoTroceado(partes, cola)
  }

  /** The answer `crudo` carries `texto` whole. */
  ghost predicate EnUnaPieza(crudo: seq<byte>, texto: string, cab: seq<byte>) {
    && Cabecera(cab) && CodigoDe(Minusculas(Tolerante(cab))) == "200"
    && !Contiene(Minusculas(Tolerante(cab)), TROCEADO)
    && crudo == cab + CRLFCRLF + Bytes(texto)
  }

  /** Every 200 answer whose text is sent in any non-empty parts gives back that text, cut
      anywhere, even inside a character. */
  lemma TextoEnTrozos(texto: string, partes: seq<seq<byte>>, cab: seq<byte>, trailers: seq<byte>)
    requires Partes(partes) && Unidas(partes) == Bytes(texto)
    requires Cabecera(cab) && CodigoDe(Minusculas(Tolerante(cab))) == "200"
    requires Contiene(Minusculas(Tolerante(cab)), TROCEADO)
    ensures Leida(cab + CRLFCRLF + CuerpoTroceado(partes, trailers)) == Ok(texto)
  {
    var resto := CuerpoTroceado(partes, trailers);
    var crudo := cab + CRLFCRLF + resto;
    FinDe(cab, crudo, resto);
    assert crudo[..|cab|] == cab && crudo[|cab| + 4..] == resto;
    TroceadoVale(partes);
    HexAnuncia(0);
    CompletaDa(resto, Troceado(partes), Bytes(Hex(0)), trailers);
    BytesIdaYVuelta(texto);
  }

  /** The same text sent whole. */
  lemma TextoEntero(texto: string, cab: seq<byte>)
    requires Cabecera(cab) && CodigoDe(Minusculas(Tolerante(cab))) == "200"
    requires !Contiene(Minusculas(Tolerante(cab)), TROCEADO)
    ensures Leida(cab + CRLFCRLF + Bytes(texto)) == Ok(texto)
  {
    var crudo := cab + CRLFCRLF + Bytes(texto);
    FinDe(cab, crudo, Bytes(texto));
    assert crudo[..|cab|] == cab && crudo[|cab| + 4..] == Bytes(texto);
    BytesIdaYVuelta(texto);
  }

  lemma SegundaPalabra(version: string, codigo: string, razon: string, cola: string)
    requires |version| > 0 && forall k :: 0 <= k < |version| ==> !EsEspacio(version[k])
    requires |codigo| > 0 && forall k :: 0 <= k < |codigo| ==> !EsEspacio(codigo[k])
    requires |razon| > 0 && EsEspacio(razon[0]) && forall k :: 0 <= k < |razon| ==> razon[k] != '\n'
    ensures CodigoDe(version + ([' '] + (codigo + razon)) + (['\n'] + cola)) == codigo
  {
    var tras := codigo + razon;
    var linea := version + ([' '] + tras);
    assert forall k :: 0 <= k < |tras| ==> tras[k] != '\n';
    assert forall k :: 0 <= k < |linea| ==> linea[k] != '\n';
    PrimeroTras(linea, '\n', cola);
    var s := linea + (['\n'] + cola);
    assert s[..|linea|] == linea;
    assert linea[0] == version[0];
    assert SinInicio(linea) == linea;
    PalabraDe(version, [' '] + tras);
    assert linea[|version|..] == [' '] + tras;
    assert ([' '] + tras)[1..] == tras && tras[0] == codigo[0];
    assert SinInicio(tras) == tras;
    PalabraDe(codigo, razon);
  }

  /** The status line of a 200 answer is read as such, in any version, with any reason. */
  lemma CodigoDoscientos(version: string, razon: string, cola: string)
    requires |version| > 0 && forall k :: 0 <= k < |version| ==> !EsEspacio(version[k])
    requires forall k :: 0 <= k < |razon| ==> razon[k] != '\n'
    ensures CodigoDe(Minusculas(version + " 200 " + razon + "\r\n" + cola)) == "200"
  {
    var v, z, c := Minusculas(version), [' '] + Minusculas(razon) + ['\r'], Minusculas(cola);
    SegundaPalabra(v, "200", z, c);
    assert Minusculas(version + " 200 " + razon + "\r\n" + cola) == v + ([' '] + ("200" + z)) + (['\n'] + c);
  }

  lemma PrimeroTras(a: string, c: char, b: string)
    requires forall k :: 0 <= k < |a| ==> a[k] != c
    ensures Primero(a + ([c] + b), c) == |a|
  {
    var s := a + ([c] + b);
    assert s[|a|] == c && forall k :: 0 <= k < |a| ==> s[k] == a[k];
  }

  lemma {:induction false} PalabraDe(p: string, cola: string)
    requires forall k :: 0 <= k < |p| ==> !EsEspacio(p[k])
    requires |cola| > 0 && EsEspacio(cola[0])
    ensures Palabra(p + cola) == p && |p| <= |p + cola|
  {
    if |p| > 0 {
      assert (p + cola)[1..] == p[1..] + cola;
      PalabraDe(p[1..], cola);
    } else {
      assert p + cola == cola;
    }
  }

  /** A concrete one: a stream cut before its first chunk is closed, taken for whole. */
  lemma CortadaPasaPorEntera()
    ensures var r := Bytes(Hex(1)) + CRLF + [0x41];
      Decodificar(r) == Ok([0x41]) && !Entera(r, [0x41])
  {
    var linea, r := Bytes(Hex(1)), Bytes(Hex(1)) + CRLF + [0x41];
    HexAnuncia(1);
    assert |linea| == 1 by { BytesAscii(Hex(1)); }
    assert [0x41] + [] == [0x41] && [] + [0x41] == [0x41];
    assert Cortada(r, [], linea, [0x41], []);
    CortadaDa(r, [], linea, [0x41], []);
    if Entera(r, [0x41]) {
      NoEsEntera(r, [0x41]);
    }
  }

  /** A whole stream with any data at all has at least seven bytes. */
  lemma NoEsEntera(r: seq<byte>, b: seq<byte>)
    requires Entera(r, b) && |b| > 0
    ensures |r| >= 7
  {
    var ts, ultima, cola :| Completa(r, ts, ultima, cola) && b == Datos(ts);
    LargoMinimo(ts, ultima + CRLF + cola);
  }

  lemma {:induction false} LargoMinimo(ts: seq<Trozo>, fin: seq<byte>)
    requires Correctos(ts)
    ensures |Enviados(ts, fin)| >= 5 * |ts| + |fin|
  {
    if |ts| == 0 {
    } else {
      LargoMinimo(ts[1..], fin);
    }
  }
}
