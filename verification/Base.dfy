/** Shared vocabulary: machine integers with their Rust widths, `Option`, the core's
    error codes, and the order on identifiers. */
module Base {

  datatype Option<+T> = None | Some(value: T)

  datatype Result<+T, +E> = Ok(valor: T) | Err(error: E)

  const U32_MAX: int := 0xFFFF_FFFF
  const U64_MAX: int := 0xFFFF_FFFF_FFFF_FFFF

  type u32 = n: int | 0 <= n <= U32_MAX
  type u64 = n: int | 0 <= n <= U64_MAX

  /** `u32::saturating_add(1)`. */
  function SumaUno(n: u32): u32 {
    if n == U32_MAX then n else n + 1
  }

  /** `u64::saturating_add` and `usize::saturating_add` on a 64-bit machine. */
  function SumaTope(a: u64, b: u64): u64 {
    if a + b > U64_MAX then U64_MAX else a + b
  }

  /** `saturating_sub`. */
  function RestaTope(a: u64, b: u64): u64 {
    if a < b then 0 else a - b
  }

  function Min(a: int, b: int): int {
    if a < b then a else b
  }

  function Max(a: int, b: int): int {
    if a < b then b else a
  }

  datatype Error =
    | Nombre | Monto | Garantia | NoDivide | NoEsta | NoToca | YaExiste | Nota
    | Porcentaje | Detalle | NoEsTuya | OfertaTomada | Precio

  /** `String`'s `<`: lexicographic on code points, which is the byte order of UTF-8. */
  predicate Menor(a: string, b: string) {
    |b| > 0 && (|a| == 0 || a[0] < b[0] || (a[0] == b[0] && Menor(a[1..], b[1..])))
  }

  lemma {:induction false} MenorTransitivo(a: string, b: string, c: string)
    requires Menor(a, b) && Menor(b, c)
    ensures Menor(a, c)
  {
    if |a| > 0 && a[0] == b[0] == c[0] {
      MenorTransitivo(a[1..], b[1..], c[1..]);
    }
  }

  lemma {:induction false} MenorIrreflexivo(a: string)
    ensures !Menor(a, a)
  {
    if |a| == 0 {
    } else {
      MenorIrreflexivo(a[1..]);
    }
  }

  lemma {:induction false} MenorTotal(a: string, b: string)
    ensures Menor(a, b) || a == b || Menor(b, a)
  {
    if |a| > 0 && |b| > 0 && a[0] == b[0] {
      MenorTotal(a[1..], b[1..]);
      assert a == [a[0]] + a[1..] && b == [b[0]] + b[1..];
    }
  }
}
