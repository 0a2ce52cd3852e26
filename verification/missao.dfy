/** A mission (`Missao`): its flight points in a linked list, its lifecycle timestamps, and the
    statistics report computed by one forward traversal of the points. */
module Missoes {
  import opened Options
  import opened ListaEncadeada
  import opened PontoVoo

  /** Timestamps are abstract integer seconds; the identifier is supplied by the caller. */
  datatype Missao = Missao(id: string, tipo: string, dataInicio: int, dataFim: Option<int>, pontosVoo: Lista<PontoDeVoo>)

  /** The mission's points in recording order. */
  function Pontos(m: Missao): seq<PontoDeVoo>
  {
    Conteudo(m.pontosVoo)
  }

  /** `Missao(tipo)`: an active mission with no points. */
  function NovaMissao(id: string, tipo: string, agora: int): (m: Missao)
    ensures m.id == id && m.tipo == tipo && m.dataInicio == agora
    ensures m.dataFim == None
    ensures Valida(m.pontosVoo) && Pontos(m) == []
  {
    Missao(id, tipo, agora, None, Vazia())
  }

  /** `registrar_ponto`: builds a point from the arguments and appends it. There is no guard on
      an ended mission, as in the source. */
  function RegistrarPonto(m: Missao, x: int, y: int, nivelBateria: real, env: DadosAmbientais, tel: Telemetria): (m': Missao)
    requires Valida(m.pontosVoo) && TelemetriaValida(tel)
    ensures Valida(m'.pontosVoo)
    ensures |Pontos(m')| == |Pontos(m)| + 1
    ensures Pontos(m')[..|Pontos(m)|] == Pontos(m)
    ensures Pontos(m')[|Pontos(m)|].coordenadas == Coordenadas(x, y)
    ensures Pontos(m')[|Pontos(m)|].nivelBateria == nivelBateria
    ensures Pontos(m')[|Pontos(m)|] == NovoPonto(x, y, nivelBateria, env, tel)
    ensures m'.(pontosVoo := m.pontosVoo) == m
  {
    var ponto := NovoPonto(x, y, nivelBateria, env, tel);
    var m' := m.(pontosVoo := InserirFinal(m.pontosVoo, ponto));
    assert Pontos(m') == Pontos(m) + [ponto];
    m'
  }

  /** `finalizar_missao`: records the end time and changes nothing else. */
  function FinalizarMissao(m: Missao, agora: int): (m': Missao)
    ensures m'.dataFim == Some(agora)
    ensures m'.(dataFim := m.dataFim) == m
  {
    m.(dataFim := Some(agora))
  }

  /** `tempo_total`: from the start to the end time, or to `agora` while the mission is open. */
  function TempoTotal(m: Missao, agora: int): (t: int)
    ensures m.dataFim.Some? ==> m.dataInicio + t == m.dataFim.value
    ensures m.dataFim.None? ==> m.dataInicio + t == agora
  {
    (if m.dataFim.Some? then m.dataFim.value else agora) - m.dataInicio
  }

  /** Ending a mission at `fim` fixes its duration to end minus start; for an open mission that is
      the duration it showed when the clock read `fim`, whatever the clock reads later. */
  lemma DuracaoAposFinalizar(m: Missao, fim: int, agora: int)
    ensures m.dataFim == None ==> TempoTotal(FinalizarMissao(m, fim), agora) == TempoTotal(m, fim)
    ensures TempoTotal(FinalizarMissao(m, fim), agora) == fim - m.dataInicio
  {
  }

  // ---------------------------------------------------------------------------------------
  // Reference definitions of the report's quantities, by recursion over the point sequence.

  /** Sum of `calcular_distancia` over consecutive pairs of points. */
  function DistanciaTotal(ps: seq<PontoDeVoo>, sqrt: real -> real): real {
    if |ps| <= 1 then 0.0
    else CalcularDistancia(ps[0].coordenadas, ps[1].coordenadas, sqrt) + DistanciaTotal(ps[1..], sqrt)
  }

  /** Sum of one numeric attribute over the points. */
  function Soma(ps: seq<PontoDeVoo>, campo: PontoDeVoo -> real): real {
    if |ps| == 0 then 0.0 else campo(ps[0]) + Soma(ps[1..], campo)
  }

  function Poluicao(p: PontoDeVoo): real { p.indicePoluicaoAr as real }
  function Densidade(p: PontoDeVoo): real { p.densidadePopulacional }
  function Vegetacao(p: PontoDeVoo): real { p.presencaAreasVerdes }

  /** How many points fall into category `c`. */
  function Contagem(ps: seq<PontoDeVoo>, c: Categoria): nat {
    if |ps| == 0 then 0
    else (if CategoriaDoPonto(ps[0]) == c then 1 else 0) + Contagem(ps[1..], c)
  }

  /** The category histogram: each category that occurs, with its number of occurrences. */
  function Frequencias(ps: seq<PontoDeVoo>): map<Categoria, nat> {
    map c | c in TodasCategorias && Contagem(ps, c) > 0 :: Contagem(ps, c)
  }

  /** `freq[c] = freq.get(c, 0) + 1`. */
  function Incrementar(freq: map<Categoria, nat>, c: Categoria): map<Categoria, nat> {
    freq[c := (if c in freq then freq[c] else 0) + 1]
  }

  /** The count a histogram holds for `c`, 0 when absent. */
  function Frequencia(freq: map<Categoria, nat>, c: Categoria): nat {
    if c in freq then freq[c] else 0
  }

  /** The total of a histogram over the six categories. */
  function TotalFrequencias(freq: map<Categoria, nat>): nat {
    Frequencia(freq, Otima) + Frequencia(freq, Moderada) + Frequencia(freq, InsalubreSensiveis)
    + Frequencia(freq, Insalubre) + Frequencia(freq, MuitoInsalubre) + Frequencia(freq, Perigosa)
  }

  /** Points whose battery level never rises from one point to the next. */
  ghost predicate BateriasNaoCrescentes(ps: seq<PontoDeVoo>) {
    forall i :: 0 <= i < |ps| - 1 ==> ps[i + 1].nivelBateria <= ps[i].nivelBateria
  }

  // ---------------------------------------------------------------------------------------
  // How each reference definition changes when a point is appended: the step of the traversal.

  lemma {:induction false} DistanciaTotalAoAcrescentar(ps: seq<PontoDeVoo>, p: PontoDeVoo, sqrt: real -> real)
    ensures DistanciaTotal(ps + [p], sqrt)
            == DistanciaTotal(ps, sqrt)
               + (if |ps| == 0 then 0.0 else CalcularDistancia(ps[|ps| - 1].coordenadas, p.coordenadas, sqrt))
    decreases |ps|
  {
    if |ps| >= 2 {
      assert (ps + [p])[1..] == ps[1..] + [p];
      DistanciaTotalAoAcrescentar(ps[1..], p, sqrt);
    }
  }

  lemma {:induction false} SomaAoAcrescentar(ps: seq<PontoDeVoo>, p: PontoDeVoo, campo: PontoDeVoo -> real)
    ensures Soma(ps + [p], campo) == Soma(ps, campo) + campo(p)
    decreases |ps|
  {
    if |ps| > 0 {
      assert (ps + [p])[1..] == ps[1..] + [p];
      SomaAoAcrescentar(ps[1..], p, campo);
    }
  }

  lemma {:induction false} ContagemAoAcrescentar(ps: seq<PontoDeVoo>, p: PontoDeVoo, c: Categoria)
    ensures Contagem(ps + [p], c) == Contagem(ps, c) + (if CategoriaDoPonto(p) == c then 1 else 0)
    decreases |ps|
  {
    if |ps| > 0 {
      assert (ps + [p])[1..] == ps[1..] + [p];
      ContagemAoAcrescentar(ps[1..], p, c);
    }
  }

  lemma TodaCategoriaListada(c: Categoria)
    ensures c in TodasCategorias
  {
  }

  lemma FrequenciasAoAcrescentar(ps: seq<PontoDeVoo>, p: PontoDeVoo)
    ensures Frequencias(ps + [p]) == Incrementar(Frequencias(ps), CategoriaDoPonto(p))
  {
    var antes := Frequencias(ps);
    var depois := Frequencias(ps + [p]);
    var esperado := Incrementar(antes, CategoriaDoPonto(p));
    forall c | true
      ensures (c in depois <==> c in esperado) && (c in depois ==> depois[c] == esperado[c])
    {
      TodaCategoriaListada(c);
      ContagemAoAcrescentar(ps, p, c);
    }
    assert depois.Keys == esperado.Keys;
  }

  // ---------------------------------------------------------------------------------------
  // The report.

  /** The numeric content of `gerar_relatorio`'s dictionary; `NenhumPontoRegistrado` is the
      "Nenhum ponto registrado." marker returned for a mission without points. */
  datatype Relatorio =
    | NenhumPontoRegistrado
    | Relatorio(
        id: string,
        tipo: string,
        duracao: int,
        pontosColetados: nat,
        distanciaPercorrida: real,
        bateriaConsumida: real,
        eficienciaEnergetica: real,
        mediaPoluicao: real,
        mediaDensidade: real,
        mediaAreaVerde: real,
        distribuicao: map<Categoria, nat>)

  /** The report, defined from the reference definitions above. */
  function RelatorioEsperado(m: Missao, agora: int, sqrt: real -> real): Relatorio
    requires Valida(m.pontosVoo)
  {
    var ps := Pontos(m);
    if |ps| == 0 then NenhumPontoRegistrado
    else
      var distancia := DistanciaTotal(ps, sqrt);
      var consumo := ps[0].nivelBateria - ps[|ps| - 1].nivelBateria;
      var n := |ps| as real;
      Relatorio(
        m.id, m.tipo, TempoTotal(m, agora), |ps|, distancia, consumo,
        if distancia > 0.0 then consumo / distancia else 0.0,
        Soma(ps, Poluicao) / n, Soma(ps, Densidade) / n, Soma(ps, Vegetacao) / n,
        Frequencias(ps))
  }

  /** The traversal's accumulators: distance, the three sums, the histogram and the count. */
  datatype Acumuladores = Acumuladores(
    distancia: real, somaPoluicao: real, somaDensidade: real, somaVegetacao: real,
    frequencias: map<Categoria, nat>, contador: nat)

  /** What the accumulators hold after visiting the points `ps`. */
  function AcumuladoresDe(ps: seq<PontoDeVoo>, sqrt: real -> real): Acumuladores {
    Acumuladores(DistanciaTotal(ps, sqrt), Soma(ps, Poluicao), Soma(ps, Densidade), Soma(ps, Vegetacao),
      Frequencias(ps), |ps|)
  }

  /** One iteration of the traversal's loop, visiting `atual` after `anterior`: one more point,
      the leg from the previous point (none for the first), each reading added to its sum, and
      one more occurrence of the point's category, the others untouched. */
  function Visitar(acc: Acumuladores, anterior: Option<PontoDeVoo>, atual: PontoDeVoo, sqrt: real -> real): (acc': Acumuladores)
    ensures acc'.contador == acc.contador + 1
    ensures anterior.None? ==> acc'.distancia == acc.distancia
    ensures anterior.Some? ==>
      acc'.distancia == acc.distancia + CalcularDistancia(anterior.value.coordenadas, atual.coordenadas, sqrt)
    ensures EhRaiz(sqrt) ==> acc.distancia <= acc'.distancia
    ensures acc'.somaPoluicao - acc.somaPoluicao == atual.indicePoluicaoAr as real
    ensures acc'.somaDensidade - acc.somaDensidade == atual.densidadePopulacional
    ensures acc'.somaVegetacao - acc.somaVegetacao == atual.presencaAreasVerdes
    ensures Frequencia(acc'.frequencias, CategoriaDoPonto(atual)) == Frequencia(acc.frequencias, CategoriaDoPonto(atual)) + 1
    ensures forall c :: c != CategoriaDoPonto(atual) ==> Frequencia(acc'.frequencias, c) == Frequencia(acc.frequencias, c)
  {
    Acumuladores(
      if anterior.Some? then acc.distancia + CalcularDistancia(anterior.value.coordenadas, atual.coordenadas, sqrt)
      else acc.distancia,
      acc.somaPoluicao + Poluicao(atual),
      acc.somaDensidade + Densidade(atual),
      acc.somaVegetacao + Vegetacao(atual),
      Incrementar(acc.frequencias, CategoriaDoPonto(atual)),
      acc.contador + 1)
  }

  /** Visiting one more point turns the accumulators of a prefix into those of the longer prefix. */
  lemma VisitarEstendePrefixo(ps: seq<PontoDeVoo>, p: PontoDeVoo, sqrt: real -> real)
    ensures Visitar(AcumuladoresDe(ps, sqrt), if |ps| == 0 then None else Some(ps[|ps| - 1]), p, sqrt)
            == AcumuladoresDe(ps + [p], sqrt)
  {
    DistanciaTotalAoAcrescentar(ps, p, sqrt);
    SomaAoAcrescentar(ps, p, Poluicao);
    SomaAoAcrescentar(ps, p, Densidade);
    SomaAoAcrescentar(ps, p, Vegetacao);
    FrequenciasAoAcrescentar(ps, p);
  }

  /** The report built from the accumulators and the two end points' battery levels: the
      consumption is what was lost between them, the efficiency is consumption per unit of
      distance (0 without distance), and each average times the count gives back its sum. */
  function Concluir(m: Missao, agora: int, acc: Acumuladores, bateriaInicial: real, bateriaFinal: real): (r: Relatorio)
    requires acc.contador > 0
    ensures r.Relatorio? && r.id == m.id && r.tipo == m.tipo && r.duracao == TempoTotal(m, agora)
    ensures r.pontosColetados == acc.contador && r.distanciaPercorrida == acc.distancia
    ensures bateriaFinal + r.bateriaConsumida == bateriaInicial
    ensures acc.distancia > 0.0 ==> r.eficienciaEnergetica * acc.distancia == r.bateriaConsumida
    ensures acc.distancia <= 0.0 ==> r.eficienciaEnergetica == 0.0
    ensures r.mediaPoluicao * (acc.contador as real) == acc.somaPoluicao
    ensures r.mediaDensidade * (acc.contador as real) == acc.somaDensidade
    ensures r.mediaAreaVerde * (acc.contador as real) == acc.somaVegetacao
    ensures r.distribuicao == acc.frequencias
  {
    var consumo := bateriaInicial - bateriaFinal;
    var n := acc.contador as real;
    Relatorio(
      m.id, m.tipo, TempoTotal(m, agora), acc.contador, acc.distancia, consumo,
      if acc.distancia > 0.0 then consumo / acc.distancia else 0.0,
      acc.somaPoluicao / n, acc.somaDensidade / n, acc.somaVegetacao / n, acc.frequencias)
  }

  /** `gerar_relatorio`: one walk from `inicio` along `proximo`, carrying the previous node for
      the distance term; the battery levels are read through the `inicio` and `fim` pointers. */
  method GerarRelatorio(m: Missao, agora: int, sqrt: real -> real) returns (r: Relatorio)
    requires Valida(m.pontosVoo)
    ensures r.NenhumPontoRegistrado? <==> Pontos(m) == []
    ensures r.Relatorio? ==> r.id == m.id && r.tipo == m.tipo && r.pontosColetados == |Pontos(m)|
    ensures r == RelatorioEsperado(m, agora, sqrt)
  {
    var l := m.pontosVoo;
    if EstaVazia(l) {
      return NenhumPontoRegistrado;
    }
    ghost var ps := Pontos(m);
    var atual: Option<nat> := Some(0);
    var anterior: Option<nat> := None;
    PonteirosDasPontas(l);
    var bateriaInicial := Deref(l.cadeia, l.inicio.value).value.nivelBateria;
    var bateriaFinal := Deref(l.cadeia, l.fim.value).value.nivelBateria;
    var acc := Acumuladores(0.0, 0.0, 0.0, 0.0, map[], 0);
    assert acc == AcumuladoresDe(ps[..0], sqrt);

    while atual.Some?
      invariant atual.Some? ==> atual.value == acc.contador < |ps|
      invariant atual.None? ==> acc.contador == |ps|
      invariant anterior == (if acc.contador == 0 then None else Some(acc.contador - 1))
      invariant acc.contador <= |ps| && acc == AcumuladoresDe(ps[..acc.contador], sqrt)
      decreases |ps| - acc.contador
    {
      var i := atual.value;
      var pontoAtual := l.cadeia[i].dado;
      var pontoAnterior := if anterior.Some? then Some(l.cadeia[anterior.value].dado) else None;
      assert ps[..i + 1] == ps[..i] + [pontoAtual];
      VisitarEstendePrefixo(ps[..i], pontoAtual, sqrt);
      acc := Visitar(acc, pontoAnterior, pontoAtual, sqrt);
      anterior := atual;
      atual := Proximo(l, i);
    }
    assert ps[..acc.contador] == ps;
    r := Concluir(m, agora, acc, bateriaInicial, bateriaFinal);
  }

  // ---------------------------------------------------------------------------------------
  // Properties of the report.

  /** A mission without points yields only the marker; any other mission yields statistics. */
  lemma RelatorioSemPontos(m: Missao, agora: int, sqrt: real -> real)
    requires Valida(m.pontosVoo)
    ensures RelatorioEsperado(m, agora, sqrt) == NenhumPontoRegistrado <==> Pontos(m) == []
  {
  }

  /** The report counts every point, and identifies its mission. */
  lemma RelatorioContaPontos(m: Missao, agora: int, sqrt: real -> real)
    requires Valida(m.pontosVoo) && Pontos(m) != []
    ensures RelatorioEsperado(m, agora, sqrt).pontosColetados == |Pontos(m)|
    ensures RelatorioEsperado(m, agora, sqrt).id == m.id
    ensures RelatorioEsperado(m, agora, sqrt).tipo == m.tipo
  {
  }

  /** A single point travels no distance. */
  lemma DistanciaDeUmPonto(p: PontoDeVoo, sqrt: real -> real)
    ensures DistanciaTotal([p], sqrt) == 0.0
  {
  }

  /** The total distance is never negative. */
  lemma {:induction false} DistanciaTotalNaoNegativa(ps: seq<PontoDeVoo>, sqrt: real -> real)
    requires EhRaiz(sqrt)
    ensures 0.0 <= DistanciaTotal(ps, sqrt)
    decreases |ps|
  {
    if |ps| >= 2 {
      DistanciaEuclidiana(ps[0].coordenadas, ps[1].coordenadas, sqrt);
      DistanciaTotalNaoNegativa(ps[1..], sqrt);
    }
  }

  /** Recording a point adds exactly the distance from the previous last point. */
  lemma DistanciaAoRegistrar(m: Missao, x: int, y: int, nivelBateria: real, env: DadosAmbientais, tel: Telemetria, sqrt: real -> real)
    requires Valida(m.pontosVoo) && TelemetriaValida(tel) && Pontos(m) != []
    ensures DistanciaTotal(Pontos(RegistrarPonto(m, x, y, nivelBateria, env, tel)), sqrt)
            == DistanciaTotal(Pontos(m), sqrt)
               + CalcularDistancia(Pontos(m)[|Pontos(m)| - 1].coordenadas, Coordenadas(x, y), sqrt)
  {
    var m' := RegistrarPonto(m, x, y, nivelBateria, env, tel);
    var p := NovoPonto(x, y, nivelBateria, env, tel);
    assert Pontos(m') == Pontos(m) + [p];
    DistanciaTotalAoAcrescentar(Pontos(m), p, sqrt);
  }

  /** The battery consumed is the first point's level minus the last point's, and the efficiency
      is that consumption per unit of distance, or 0 when no distance was travelled. */
  lemma ConsumoEEficiencia(m: Missao, agora: int, sqrt: real -> real)
    requires Valida(m.pontosVoo) && Pontos(m) != [] && EhRaiz(sqrt)
    ensures var r := RelatorioEsperado(m, agora, sqrt);
      && r.bateriaConsumida == Pontos(m)[0].nivelBateria - Pontos(m)[|Pontos(m)| - 1].nivelBateria
      && (r.distanciaPercorrida == 0.0 ==> r.eficienciaEnergetica == 0.0)
      && (r.distanciaPercorrida != 0.0 ==> r.eficienciaEnergetica == r.bateriaConsumida / r.distanciaPercorrida)
  {
    DistanciaTotalNaoNegativa(Pontos(m), sqrt);
  }

  /** Each average is the attribute's sum over the points divided by their number (a corollary
      of the definition of `RelatorioEsperado`, stated over the mission). */
  lemma MediasDoRelatorio(m: Missao, agora: int, sqrt: real -> real)
    requires Valida(m.pontosVoo) && Pontos(m) != []
    ensures var r := RelatorioEsperado(m, agora, sqrt);
      && r.mediaPoluicao * (|Pontos(m)| as real) == Soma(Pontos(m), Poluicao)
      && r.mediaDensidade * (|Pontos(m)| as real) == Soma(Pontos(m), Densidade)
      && r.mediaAreaVerde * (|Pontos(m)| as real) == Soma(Pontos(m), Vegetacao)
  {
  }

  lemma {:induction false} ContagensSomamTamanho(ps: seq<PontoDeVoo>)
    ensures Contagem(ps, Otima) + Contagem(ps, Moderada) + Contagem(ps, InsalubreSensiveis)
            + Contagem(ps, Insalubre) + Contagem(ps, MuitoInsalubre) + Contagem(ps, Perigosa) == |ps|
    decreases |ps|
  {
    if |ps| > 0 {
      ContagensSomamTamanho(ps[1..]);
    }
  }

  /** The histogram lists exactly the categories that occur, each at least once, each with the
      number of points in it, and its counts add up to the number of points. */
  lemma DistribuicaoDoRelatorio(ps: seq<PontoDeVoo>)
    ensures forall c :: c in Frequencias(ps) <==> exists i :: 0 <= i < |ps| && CategoriaDoPonto(ps[i]) == c
    ensures forall c :: c in Frequencias(ps) ==> 1 <= Frequencias(ps)[c] == Contagem(ps, c)
    ensures TotalFrequencias(Frequencias(ps)) == |ps|
  {
    forall c ensures c in Frequencias(ps) <==> exists i :: 0 <= i < |ps| && CategoriaDoPonto(ps[i]) == c {
      TodaCategoriaListada(c);
      ContagemPositiva(ps, c);
    }
    ContagensSomamTamanho(ps);
  }

  lemma {:induction false} ContagemPositiva(ps: seq<PontoDeVoo>, c: Categoria)
    ensures Contagem(ps, c) > 0 <==> exists i :: 0 <= i < |ps| && CategoriaDoPonto(ps[i]) == c
    decreases |ps|
  {
    if |ps| > 0 {
      ContagemPositiva(ps[1..], c);
      if Contagem(ps[1..], c) > 0 {
        var i :| 0 <= i < |ps[1..]| && CategoriaDoPonto(ps[1..][i]) == c;
        assert CategoriaDoPonto(ps[i + 1]) == c;
      }
      if exists i :: 0 <= i < |ps| && CategoriaDoPonto(ps[i]) == c {
        var i :| 0 <= i < |ps| && CategoriaDoPonto(ps[i]) == c;
        if i > 0 {
          assert CategoriaDoPonto(ps[1..][i - 1]) == c;
        }
      }
    }
  }

  /** When battery levels never rise along the points, the battery consumed is not negative. */
  lemma {:induction false} PrimeiraBateriaMaiorQueUltima(ps: seq<PontoDeVoo>)
    requires |ps| > 0 && BateriasNaoCrescentes(ps)
    ensures ps[|ps| - 1].nivelBateria <= ps[0].nivelBateria
    decreases |ps|
  {
    if |ps| > 1 {
      assert BateriasNaoCrescentes(ps[1..]) by {
        forall i | 0 <= i < |ps[1..]| - 1
          ensures ps[1..][i + 1].nivelBateria <= ps[1..][i].nivelBateria
        {
          assert ps[1..][i] == ps[i + 1] && ps[1..][i + 1] == ps[i + 2];
        }
      }
      PrimeiraBateriaMaiorQueUltima(ps[1..]);
    }
  }

  lemma ConsumoNaoNegativo(m: Missao, agora: int, sqrt: real -> real)
    requires Valida(m.pontosVoo) && Pontos(m) != [] && BateriasNaoCrescentes(Pontos(m))
    ensures 0.0 <= RelatorioEsperado(m, agora, sqrt).bateriaConsumida
  {
    PrimeiraBateriaMaiorQueUltima(Pontos(m));
  }

  /** A survey mission: points (0,0), (3,0), (3,4) at battery 100, 98 and 96 give 3 points,
      distance 3 + 4 = 7, 4 units of battery consumed and an efficiency of 4/7. */
  lemma CenarioLevantamento(env: DadosAmbientais, tel: Telemetria, sqrt: real -> real, inicio: int, fim: int)
    requires TelemetriaValida(tel) && EhRaiz(sqrt)
    ensures
      var m0 := NovaMissao("m1", "survey", inicio);
      var m1 := RegistrarPonto(m0, 0, 0, 100.0, env, tel);
      var m2 := RegistrarPonto(m1, 3, 0, 98.0, env, tel);
      var m3 := RegistrarPonto(m2, 3, 4, 96.0, env, tel);
      var r := RelatorioEsperado(FinalizarMissao(m3, fim), fim, sqrt);
      && r.pontosColetados == 3
      && r.distanciaPercorrida == 7.0
      && r.bateriaConsumida == 4.0
      && r.eficienciaEnergetica == 4.0 / 7.0
      && r.duracao == fim - inicio
  {
    var m0 := NovaMissao("m1", "survey", inicio);
    var m1 := RegistrarPonto(m0, 0, 0, 100.0, env, tel);
    var m2 := RegistrarPonto(m1, 3, 0, 98.0, env, tel);
    var m3 := RegistrarPonto(m2, 3, 4, 96.0, env, tel);
    var ps := Pontos(m3);
    assert |ps| == 3;
    assert ps[0].coordenadas == Coordenadas(0, 0) && ps[0].nivelBateria == 100.0;
    assert ps[1].coordenadas == Coordenadas(3, 0);
    assert ps[2].coordenadas == Coordenadas(3, 4) && ps[2].nivelBateria == 96.0;
    assert Quadrado(3.0) == 9.0 && sqrt(Quadrado(3.0)) == 3.0;
    assert Quadrado(4.0) == 16.0 && sqrt(Quadrado(4.0)) == 4.0;
    assert CalcularDistancia(ps[0].coordenadas, ps[1].coordenadas, sqrt) == 3.0;
    assert CalcularDistancia(ps[1].coordenadas, ps[2].coordenadas, sqrt) == 4.0;
    var cauda := ps[1..];
    assert cauda[0] == ps[1] && cauda[1] == ps[2] && |cauda| == 2;
    assert DistanciaTotal(cauda[1..], sqrt) == 0.0;
    assert DistanciaTotal(cauda, sqrt) == 4.0;
    assert DistanciaTotal(ps, sqrt) == 7.0;
  }
}
