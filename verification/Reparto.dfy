/** Sharing out a box (spend.rs). Each side put `capital` in the pot; the contractor gets its
    own back plus a percentage of the other's, and the fee comes first out of what is left to
    the principal. Sums and products are 64-bit and wrap. */
module Reparto {
  import opened Base
  import opened Precio
  import opened Cuotas

  datatype Split = Split(contratista: u64, mandante: u64, fee: u64)

  datatype Motivo = PctAlto | PoteMalo | FeeAlto | NoAlcanza | NoCierra | SinPolvoMandante | SinPolvoContratista

  function Envuelve(n: nat): u64 {
    n % (U64_MAX + 1)
  }

  function PorDos(n: u64): u64 {
    if 2 * n > U64_MAX then U64_MAX else 2 * n
  }

  /** What each side would get before the fee. */
  function Base0(capital: u64, pct: u32): (r: (u64, u64))
    requires pct <= 100
    ensures r.1 <= capital
  {
    PrincipalCabe(capital, pct);
    var principal := Envuelve(capital * pct) / 100;
    (Envuelve(capital + principal), capital - principal)
  }

  /** The principal's part never exceeds its capital, even when the product wraps. */
  lemma PrincipalCabe(capital: u64, pct: u32)
    requires pct <= 100
    ensures capital * pct >= 0 && Envuelve(capital * pct) / 100 <= capital
  {
    MulMonotona(capital, 0, pct);
    MulMonotona(capital, pct, 100);
    if capital * pct <= U64_MAX {
      assert capital * pct <= capital * 100;
    } else {
      assert capital * 100 > U64_MAX;
    }
  }

  /** The shares after the fee, which takes from the principal first. */
  function TrasFee(c0: u64, m0: u64, fee: u64): Result<(u64, u64), Motivo> {
    if m0 >= fee then Ok((c0, m0 - fee))
    else if c0 < fee - m0 then Err(NoAlcanza)
    else Ok((c0 - (fee - m0), 0))
  }

  function SplitPot(pot: u64, capital: u64, pct: u32, fee: u64): Result<Split, Motivo> {
    if pct > 100 then Err(PctAlto)
    else if capital == 0 || pot != PorDos(capital) then Err(PoteMalo)
    else if fee >= pot then Err(FeeAlto)
    else
      var (c0, m0) := Base0(capital, pct);
      match TrasFee(c0, m0, fee)
      case Err(e) => Err(e)
      case Ok((c, m)) => if Envuelve(c + m + fee) != pot then Err(NoCierra) else Ok(Split(c, m, fee))
  }

  method SplitBase(pot: u64, capital: u64, pct: u32, fee: u64) returns (r: Result<Split, Motivo>)
    ensures r == SplitPot(pot, capital, pct, fee)
    ensures r.Ok? <==> Repartible(pot, capital, pct, fee)
    ensures r.Ok? ==> r.valor.contratista + r.valor.mandante + r.valor.fee == pot
  {
    RepartoSaleSi(pot, capital, pct, fee);
    if pct > 100 {
      return Err(PctAlto);
    }
    if capital == 0 || pot != PorDos(capital) {
      return Err(PoteMalo);
    }
    if fee >= pot {
      return Err(FeeAlto);
    }
    PrincipalCabe(capital, pct);
    var principal := Envuelve(capital * pct) / 100;
    var aContratista := Envuelve(capital + principal);
    var aMandante: int := capital - principal;
    assert Base0(capital, pct) == (aContratista, aMandante);
    if aMandante >= fee {
      aMandante := aMandante - fee;
    } else {
      var corto := fee - aMandante;
      aMandante := 0;
      if aContratista < corto {
        return Err(NoAlcanza);
      }
      aContratista := aContratista - corto;
    }
    if Envuelve(aContratista + aMandante + fee) != pot {
      return Err(NoCierra);
    }
    return Ok(Split(aContratista, aMandante, fee));
  }

  /** The split of the versions before 0.2.8: a side with nothing gets one piconero. */
  method SplitPotLegacy(pot: u64, capital: u64, pct: u32, fee: u64) returns (r: Result<Split, Motivo>)
    ensures r == SplitViejo(pot, capital, pct, fee)
    ensures r.Ok? <==> Repartible(pot, capital, pct, fee) && fee + 1 < pot
    ensures r.Ok? ==>
      && r.valor.contratista + r.valor.mandante + r.valor.fee == pot
      && r.valor.contratista >= 1 && r.valor.mandante >= 1
  {
    RepartoViejoSaleSi(pot, capital, pct, fee);
    r := SplitBase(pot, capital, pct, fee);
    if r.Err? {
      return;
    }
    var s := r.valor;
    if s.mandante == 0 {
      if s.contratista < 2 {
        return Err(SinPolvoMandante);
      }
      s := s.(contratista := s.contratista - 1);
      s := s.(mandante := 1);
    }
    if s.contratista == 0 {
      if s.mandante < 2 {
        return Err(SinPolvoContratista);
      }
      s := s.(mandante := s.mandante - 1);
      s := s.(contratista := 1);
    }
    return Ok(s);
  }

  function SplitViejo(pot: u64, capital: u64, pct: u32, fee: u64): Result<Split, Motivo> {
    match SplitPot(pot, capital, pct, fee)
    case Err(e) => Err(e)
    case Ok(s) => ConPolvo(s)
  }

  function ConPolvo(s: Split): Result<Split, Motivo> {
    if s.mandante == 0 && s.contratista < 2 then Err(SinPolvoMandante)
    else if s.mandante == 0 then Ok(s.(contratista := s.contratista - 1, mandante := 1))
    else if s.contratista == 0 && s.mandante < 2 then Err(SinPolvoContratista)
    else if s.contratista == 0 then Ok(s.(mandante := s.mandante - 1, contratista := 1))
    else Ok(s)
  }

  lemma PolvoMueveUno(s: Split, pot: u64)
    requires s.contratista + s.mandante + s.fee == pot && s.contratista >= 1
    ensures var v := ConPolvo(s);
      && (v.Ok? <==> s.fee + 1 < pot)
      && (v.Ok? ==>
            && v.valor.contratista + v.valor.mandante + v.valor.fee == pot
            && s.contratista - 1 <= v.valor.contratista <= s.contratista
            && s.mandante <= v.valor.mandante <= s.mandante + 1
            && v.valor.contratista >= 1 && v.valor.mandante >= 1)
  {
  }

  /** What the inputs must be; the product is not rounded to 64 bits here. */
  predicate Repartible(pot: u64, capital: u64, pct: u32, fee: u64) {
    pct <= 100 && 0 < capital && pot == 2 * capital && fee < pot
  }

  /** On any inputs whatever, also where sums and products wrap: the split goes through exactly
      when the pot is two capitals and the fee is less, and then it shares the pot to the last
      piconero; "no alcanza" and "no cierra" happen only when two capitals do not fit 64
      bits. */
  lemma RepartoSaleSi(pot: u64, capital: u64, pct: u32, fee: u64)
    ensures var r := SplitPot(pot, capital, pct, fee);
      && (r.Ok? <==> Repartible(pot, capital, pct, fee))
      && (r.Ok? ==> r.valor.fee == fee && r.valor.contratista + r.valor.mandante + r.valor.fee == pot
                    && r.valor.contratista >= 1)
      && (r.Err? && 2 * capital <= U64_MAX ==> r.error != NoAlcanza && r.error != NoCierra)
  {
    if pct <= 100 && 0 < capital && pot == PorDos(capital) && fee < pot {
      PrincipalCabe(capital, pct);
      var principal := Envuelve(capital * pct) / 100;
      if 2 * capital <= U64_MAX {
        SinEnvolver(capital + principal);
        FeeExacto(capital, principal, fee);
        SinEnvolver(2 * capital);
      } else {
        PoteImpar(capital, principal, fee);
      }
    }
  }

  /** Two capitals over 64 bits saturate to an odd pot, and shares only add up to even ones. */
  lemma PoteImpar(capital: u64, principal: u64, fee: u64)
    requires 2 * capital > U64_MAX && principal <= capital && fee < U64_MAX
    ensures var r := TrasFee(Envuelve(capital + principal), capital - principal, fee);
      r.Ok? ==> Envuelve(r.valor.0 + r.valor.1 + fee) != U64_MAX
  {
  }

  /** The split of the old versions, on any inputs. */
  lemma RepartoViejoSaleSi(pot: u64, capital: u64, pct: u32, fee: u64)
    ensures var v := SplitViejo(pot, capital, pct, fee);
      && (v.Ok? <==> Repartible(pot, capital, pct, fee) && fee + 1 < pot)
      && (v.Ok? ==> v.valor.contratista + v.valor.mandante + v.valor.fee == pot
                    && v.valor.contratista >= 1 && v.valor.mandante >= 1)
  {
    RepartoSaleSi(pot, capital, pct, fee);
    if SplitPot(pot, capital, pct, fee).Ok? {
      PolvoMueveUno(SplitPot(pot, capital, pct, fee).valor, pot);
    }
  }

  /** On a box of any capital below 2^64 / 100 and any percentage, the split succeeds exactly
      when the fee is less than the pot (neither "no alcanza" nor "no cierra" can happen), it
      shares out the pot to the last piconero, and the contractor gets its capital plus the
      percentage of the fixed price, less only the fee that the principal's rest cannot pay. */
  lemma RepartoExacto(capital: u64, pct: u32, fee: u64)
    requires 0 < capital <= U64_MAX / 100 && pct <= 100
    ensures var r := SplitPot(2 * capital, capital, pct, fee);
      var pago := MontoPct(capital, pct);
      && (r.Ok? <==> fee < 2 * capital)
      && (r.Ok? ==>
            && r.valor.fee == fee
            && r.valor.contratista + r.valor.mandante + r.valor.fee == 2 * capital
            && r.valor.contratista == capital + pago - Max(0, fee - (capital - pago))
            && r.valor.mandante == Max(0, capital - pago - fee)
            && r.valor.contratista >= 1)
  {
    var pago := MontoPct(capital, pct);
    BaseExacta(capital, pct);
    if fee < 2 * capital {
      FeeExacto(capital, pago, fee);
    }
  }

  lemma BaseExacta(capital: u64, pct: u32)
    requires capital <= U64_MAX / 100 && pct <= 100
    ensures MontoPct(capital, pct) <= capital
    ensures Base0(capital, pct) == (capital + MontoPct(capital, pct), capital - MontoPct(capital, pct))
  {
    MontoPctExacto(capital, pct);
    MontoPctReparte(capital, pct);
    SinEnvolver(capital * pct);
    SinEnvolver(capital + MontoPct(capital, pct));
  }

  lemma SinEnvolver(n: nat)
    requires n <= U64_MAX
    ensures Envuelve(n) == n
  {
  }

  lemma FeeExacto(capital: u64, pago: u64, fee: u64)
    requires pago <= capital && 2 * capital <= U64_MAX && fee < 2 * capital
    ensures var r := TrasFee(capital + pago, capital - pago, fee);
      && r.Ok? && r.valor.0 + r.valor.1 + fee == 2 * capital
      && r.valor.0 == capital + pago - Max(0, fee - (capital - pago)) >= 1
      && r.valor.1 == Max(0, capital - pago - fee)
  {
  }

  lemma MontoPctMonotono(capital: u64, pct: u32, mas: u32)
    requires capital <= U64_MAX / 100 && pct <= mas <= 100
    ensures MontoPct(capital, pct) <= MontoPct(capital, mas)
  {
    MulMonotona(capital, 0, pct);
    MulMonotona(capital, pct, mas);
    MulMonotona(capital, mas, 100);
  }

  /** A higher percentage never pays the contractor less nor the principal more. */
  lemma RepartoMonotono(capital: u64, pct: u32, mas: u32, fee: u64)
    requires 0 < capital <= U64_MAX / 100 && pct <= mas <= 100 && fee < 2 * capital
    ensures var r, t := SplitPot(2 * capital, capital, pct, fee), SplitPot(2 * capital, capital, mas, fee);
      r.Ok? && t.Ok? && r.valor.contratista <= t.valor.contratista && r.valor.mandante >= t.valor.mandante
  {
    RepartoExacto(capital, pct, fee);
    RepartoExacto(capital, mas, fee);
    MontoPctMonotono(capital, pct, mas);
  }

  /** The legacy split fails exactly when the fee leaves a single piconero; otherwise it
      differs from the current one by at most one piconero, and also keeps the pot. */
  lemma RepartoViejoDifiereEnUno(capital: u64, pct: u32, fee: u64)
    requires 0 < capital <= U64_MAX / 100 && pct <= 100 && fee < 2 * capital
    ensures SplitPot(2 * capital, capital, pct, fee).Ok?
    ensures var v := SplitViejo(2 * capital, capital, pct, fee);
      var s := SplitPot(2 * capital, capital, pct, fee).valor;
      && (v.Ok? <==> fee + 1 < 2 * capital)
      && (v.Ok? ==>
            && v.valor.contratista + v.valor.mandante + v.valor.fee == 2 * capital
            && s.contratista - 1 <= v.valor.contratista <= s.contratista
            && s.mandante <= v.valor.mandante <= s.mandante + 1
            && v.valor.contratista >= 1 && v.valor.mandante >= 1)
  {
    RepartoExacto(capital, pct, fee);
    PolvoMueveUno(SplitPot(2 * capital, capital, pct, fee).valor, 2 * capital);
  }

  /** From the price to the payout: on a dollar stage whose price was fixed coherently, what
      the contractor gains over its own bond is the agreed percentage of the piconero that
      the price gives for the stage's dollars, less what of the fee the principal's rest
      cannot pay. */
  lemma DelPrecioAlPago(pr: PrecioFijado, pct: u32, fee: u64)
    requires pr.Coherente() && pr.piconero <= U64_MAX / 100 && pct <= 100
    requires fee < 2 * pr.piconero
    ensures MasCercano(pr.piconero, pr.usdCentavos, pr.centavosPorXmr)
    ensures var r := SplitPot(2 * pr.piconero, pr.piconero, pct, fee);
      var pago := MontoPct(pr.piconero, pct);
      && r.Ok? && r.valor.contratista == pr.piconero + pago - Max(0, fee - (pr.piconero - pago))
      && r.valor.mandante == Max(0, pr.piconero - pago - fee)
  {
    UsdAPiconeroEsElMasCercano(pr.usdCentavos, pr.centavosPorXmr, pr.piconero);
    RepartoExacto(pr.piconero, pct, fee);
  }
}
