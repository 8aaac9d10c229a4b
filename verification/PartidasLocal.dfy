/** The merge of a stage as the source runs it: on a mutable copy, one assignment after
    another. */
module PartidasLocal {
  import opened Base
  import opened Partidas
  import opened FusionPartida

  /** The `&mut Partida` of the source: a cell whose fields are assigned one by one. */
  class PartidaLocal {
    var p: Partida

    constructor De(valor: Partida)
      ensures p == valor
    {
      p := valor;
    }

    /** A delivery: nothing goes back, what is fixed stays, the lock number is the larger one,
        and the same copy delivered again changes at most three fields, and then none. */
    method Fusionar(otra: Partida)
      modifies this
      ensures p == Fusion(old(p), otra)
      ensures NoRetrocede(old(p), p) && ConservaFijado(old(p), p)
      ensures p.encerrarSeq == Max(old(p).encerrarSeq, otra.encerrarSeq) && |p.notas| >= |old(p).notas|
      ensures Fusion(p, otra) == Repetida(p, otra) && Fusion(Fusion(p, otra), otra) == Fusion(p, otra)
    {
      FusionNoRetrocede(p, otra);
      ReentregaEsEstable(p, otra);
      if p.detalle == "" && otra.detalle != "" {
        p := p.(detalle := otra.detalle);
      }
      SeguirEncierre(otra);
      if otra.estado.Rango() > p.estado.Rango() {
        Adelantar(otra);
        return;
      }
      if otra.estado == p.estado {
        Completar(otra);
      }
      Terminar(otra);
    }

    /** Any deliveries, in their order. */
    method Recibir(otras: seq<Partida>)
      modifies this
      ensures p == FusionTodas(old(p), otras)
      ensures NoRetrocede(old(p), p) && ConservaFijado(old(p), p)
    {
      var k := 0;
      assert otras[0..] == otras;
      while k < |otras|
        invariant 0 <= k <= |otras| && FusionTodas(p, otras[k..]) == FusionTodas(old(p), otras)
      {
        assert otras[k..][1..] == otras[k + 1..];
        Fusionar(otras[k]);
        k := k + 1;
      }
      NingunaEntregaRetrocede(old(p), otras);
    }

    method SeguirEncierre(otra: Partida)
      modifies this
      ensures p == FaseSeq(old(p), otra)
    {
      if otra.encerrarSeq > p.encerrarSeq && p.estado.Rango() < EN_TRATO {
        p := p.(estado := otra.estado);
        p := p.(encerradoPor := otra.encerradoPor);
        p := p.(encerradoCuando := otra.encerradoCuando);
        p := p.(encerrarSeq := otra.encerrarSeq);
        if otra.estado == Pendiente {
          p := p.(precio := None);
        } else if otra.precio.Some? {
          p := p.(precio := otra.precio);
        }
      } else if otra.encerrarSeq > p.encerrarSeq {
        p := p.(encerrarSeq := otra.encerrarSeq);
      } else if otra.encerrarSeq == p.encerrarSeq && p.estado == Encerrando && otra.estado == Encerrando {
        var ganaOtra := match (p.encerradoPor, otra.encerradoPor)
          case (Some(a), Some(b)) => Menor(b.id, a.id)
          case (None, Some(_)) => true
          case _ => false;
        if ganaOtra {
          p := p.(encerradoPor := otra.encerradoPor);
          p := p.(encerradoCuando := otra.encerradoCuando);
          p := p.(precio := otra.precio);
        } else if p.precio.None? && otra.encerradoPor == p.encerradoPor {
          p := p.(precio := otra.precio);
        }
      }
    }

    method Adelantar(otra: Partida)
      modifies this
      ensures p == FaseAdelante(old(p), otra)
    {
      p := p.(estado := otra.estado);
      p := p.(propuesto := otra.propuesto);
      p := p.(pago := otra.pago);
      p := p.(turno := otra.turno);
      var notas := p.notas;
      if |otra.notas| >= |notas| {
        notas := RestaurarNotas(otra.notas, notas);
      }
      if otra.encerradoPor.Some? {
        p := p.(encerradoPor := otra.encerradoPor);
        p := p.(encerradoCuando := otra.encerradoCuando);
      }
      if otra.recibo.Some? {
        p := p.(recibo := otra.recibo);
      }
      if p.precio.None? {
        p := p.(precio := otra.precio);
      }
      LlenarTxids(otra);
      notas := ElevarCajas(notas, otra.notas);
      p := p.(notas := notas);
    }

    method Completar(otra: Partida)
      modifies this
      ensures p == FaseMismoEstado(old(p), otra)
    {
      if |otra.notas| > |p.notas| {
        var notas := RestaurarNotas(otra.notas, p.notas);
        p := p.(notas := notas);
        p := p.(propuesto := otra.propuesto);
        p := p.(turno := otra.turno);
      }
      if p.pago.None? {
        p := p.(pago := otra.pago);
      }
      if p.encerradoPor.None? {
        p := p.(encerradoPor := otra.encerradoPor);
        p := p.(encerradoCuando := otra.encerradoCuando);
      }
      if p.recibo.None? {
        p := p.(recibo := otra.recibo);
      }
      if p.monto == 0 {
        p := p.(monto := otra.monto);
      }
      if p.precio.None? && p.estado != Pendiente {
        p := p.(precio := otra.precio);
      }
    }

    method Terminar(otra: Partida)
      modifies this
      ensures p == FaseFinal(old(p), otra)
    {
      if p.monto == 0 && otra.monto > 0 {
        p := p.(monto := otra.monto);
      }
      if p.estado == Pagada {
        p := p.(turno := None);
      }
      if p.estado == Pendiente && otra.estado == Pendiente && otra.detalle != "" {
        p := p.(detalle := otra.detalle);
      }
      LlenarTxids(otra);
      var notas := ElevarCajas(p.notas, otra.notas);
      p := p.(notas := notas);
    }

    method LlenarTxids(otra: Partida)
      modifies this
      ensures p == old(p).(fondeoTxid := Llenar(old(p).fondeoTxid, otra.fondeoTxid),
                           pagoTxid := Llenar(old(p).pagoTxid, otra.pagoTxid))
    {
      if p.fondeoTxid.None? {
        p := p.(fondeoTxid := otra.fondeoTxid);
      }
      if p.pagoTxid.None? {
        p := p.(pagoTxid := otra.pagoTxid);
      }
    }
  }
}
