/** UTF-8 as `String::from_utf8` and `String::from_utf8_lossy` read it. */
module Utf8 {
  import opened Base

  newtype byte = n: int | 0 <= n < 256

  predicate Continua(s: seq<byte>, k: nat) {
    k < |s| && 0x80 <= s[k] < 0xC0
  }

  predicate Entre(s: seq<byte>, k: nat, desde: byte, hasta: byte) {
    k < |s| && desde <= s[k] <= hasta
  }

  /** The second byte allowed after a first byte of a three-byte character. */
  predicate SegundoDeTres(s: seq<byte>)
    requires |s| > 0
  {
    || (s[0] == 0xE0 && Entre(s, 1, 0xA0, 0xBF))
    || ((0xE1 <= s[0] <= 0xEC || 0xEE <= s[0] <= 0xEF) && Entre(s, 1, 0x80, 0xBF))
    || (s[0] == 0xED && Entre(s, 1, 0x80, 0x9F))
  }

  /** The same for four bytes. */
  predicate SegundoDeCuatro(s: seq<byte>)
    requires |s| > 0
  {
    || (s[0] == 0xF0 && Entre(s, 1, 0x90, 0xBF))
    || (0xF1 <= s[0] <= 0xF3 && Entre(s, 1, 0x80, 0xBF))
    || (s[0] == 0xF4 && Entre(s, 1, 0x80, 0x8F))
  }

  /** The bytes of the first character, or of the part that can be none. */
  datatype Toma = Bueno(c: char, largo: nat) | Malo(largo: nat)

  function Bajos(b: byte): (n: nat)
    requires 0x80 <= b < 0xC0
    ensures n < 64
  {
    (b - 0x80) as int
  }

  function Tomar(s: seq<byte>): (t: Toma)
    requires |s| > 0
    ensures 1 <= t.largo <= |s|
  {
    var b := s[0];
    if b < 0x80 then Bueno(b as char, 1)
    else if 0xC2 <= b < 0xE0 then TomarDos(s)
    else if 0xE0 <= b < 0xF0 then TomarTres(s)
    else if 0xF0 <= b < 0xF5 then TomarCuatro(s)
    else Malo(1)
  }

  function TomarDos(s: seq<byte>): (t: Toma)
    requires |s| > 0 && 0xC2 <= s[0] < 0xE0
    ensures 1 <= t.largo <= |s|
  {
    if !Continua(s, 1) then Malo(1)
    else Bueno(((s[0] - 0xC0) as int * 64 + Bajos(s[1])) as char, 2)
  }

  function TomarTres(s: seq<byte>): (t: Toma)
    requires |s| > 0 && 0xE0 <= s[0] < 0xF0
    ensures 1 <= t.largo <= |s|
  {
    if !SegundoDeTres(s) then Malo(1)
    else if !Continua(s, 2) then Malo(2)
    else Bueno(((s[0] - 0xE0) as int * 4096 + Bajos(s[1]) * 64 + Bajos(s[2])) as char, 3)
  }

  function TomarCuatro(s: seq<byte>): (t: Toma)
    requires |s| > 0 && 0xF0 <= s[0] < 0xF5
    ensures 1 <= t.largo <= |s|
  {
    if !SegundoDeCuatro(s) then Malo(1)
    else if !Continua(s, 2) then Malo(2)
    else if !Continua(s, 3) then Malo(3)
    else
      Bueno(((s[0] - 0xF0) as int * 262144 + Bajos(s[1]) * 4096 + Bajos(s[2]) * 64 + Bajos(s[3])) as char, 4)
  }

  /** `from_utf8`: nothing bad is let through. */
  function Estricto(s: seq<byte>): Option<string> {
    if |s| == 0 then Some("")
    else match Tomar(s)
      case Malo(_) => None
      case Bueno(c, n) =>
        match Estricto(s[n..])
        case None => None
        case Some(r) => Some([c] + r)
  }

  /** `from_utf8_lossy`: each bad part becomes one U+FFFD. */
  function Tolerante(s: seq<byte>): string {
    if |s| == 0 then ""
    else
      var t := Tomar(s);
      [if t.Bueno? then t.c else '\U{FFFD}'] + Tolerante(s[t.largo..])
  }

  /** The bytes of one character. */
  function Bytes1(c: char): (r: seq<byte>)
    ensures 1 <= |r| <= 4
  {
    var n := c as int;
    if n < 0x80 then [n as byte]
    else if n < 0x800 then [(0xC0 + n / 64) as byte, (0x80 + n % 64) as byte]
    else if n < 0x10000 then
      [(0xE0 + n / 4096) as byte, (0x80 + n / 64 % 64) as byte, (0x80 + n % 64) as byte]
    else
      [(0xF0 + n / 262144) as byte, (0x80 + n / 4096 % 64) as byte,
       (0x80 + n / 64 % 64) as byte, (0x80 + n % 64) as byte]
  }

  function Bytes(s: string): seq<byte> {
    if |s| == 0 then [] else Bytes1(s[0]) + Bytes(s[1..])
  }

  lemma TomaDosTres(c: char, cola: seq<byte>)
    requires 0x80 <= c as int < 0x10000
    ensures Tomar(Bytes1(c) + cola) == Bueno(c, |Bytes1(c)|)
  {
    if c as int < 0x800 {
      TomaDos(c, cola);
    }
  }

  lemma TomaDos(c: char, cola: seq<byte>)
    requires 0x80 <= c as int < 0x800
    ensures Tomar(Bytes1(c) + cola) == Bueno(c, |Bytes1(c)|)
  {
  }

  /** `n` in base 64, with a whole top digit. */
  lemma EnBase64(n: nat, a: nat, b: nat, d: nat, e: nat)
    requires a == n / 262144 && b == n / 4096 % 64 && d == n / 64 % 64 && e == n % 64
    ensures a * 262144 + b * 4096 + d * 64 + e == n
  {
    assert n / 64 / 64 == n / 4096 && n / 4096 / 64 == n / 262144;
  }

  lemma TomaCuatro(c: char, s: seq<byte>, n: nat, a: nat, b: nat, d: nat, e: nat)
    requires n == c as int && 0x10000 <= n && a <= 4 && b < 64 && d < 64 && e < 64
    requires a * 262144 + b * 4096 + d * 64 + e == n
    requires |s| >= 4 && s[0] == (0xF0 + a) as byte && s[1] == (0x80 + b) as byte
    requires s[2] == (0x80 + d) as byte && s[3] == (0x80 + e) as byte
    ensures Tomar(s) == Bueno(c, 4)
  {
    assert n < 0x110000;
    assert a == 0 ==> b >= 16;
    assert a == 4 ==> b < 16;
    assert SegundoDeCuatro(s);
    assert Bajos(s[1]) == b && Bajos(s[2]) == d && Bajos(s[3]) == e;
  }

  lemma TomaBytes(c: char, cola: seq<byte>)
    ensures Tomar(Bytes1(c) + cola) == Bueno(c, |Bytes1(c)|)
  {
    var n := c as int;
    if 0x80 <= n < 0x10000 {
      TomaDosTres(c, cola);
    } else if n >= 0x10000 {
      EnBase64(n, n / 262144, n / 4096 % 64, n / 64 % 64, n % 64);
      TomaCuatro(c, Bytes1(c) + cola, n, n / 262144, n / 4096 % 64, n / 64 % 64, n % 64);
    }
  }

  /** Every text reads back from its bytes, strictly and tolerantly. */
  lemma {:induction false} BytesIdaYVuelta(s: string)
    ensures Estricto(Bytes(s)) == Some(s) && Tolerante(Bytes(s)) == s
  {
    if |s| == 0 {
    } else {
      var b, cola := Bytes1(s[0]), Bytes(s[1..]);
      TomaBytes(s[0], cola);
      BytesIdaYVuelta(s[1..]);
      assert (b + cola)[|b|..] == cola;
      assert s == [s[0]] + s[1..];
    }
  }
}
