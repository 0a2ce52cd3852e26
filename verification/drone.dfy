/** The drone (`Drone`): a two-state machine, idle or with one active mission, that keeps the
    history of completed missions in a linked list. Each operation returns the new state
    together with the answer the source returns as a message. */
module Drones {
  import opened Options
  import opened ListaEncadeada
  import opened PontoVoo
  import opened Missoes

  const BateriaCheia: real := 100.0
  const ConsumoMinimo: real := 0.5
  const ConsumoMaximo: real := 2.0

  datatype Drone = Drone(
    identificador: string,
    modelo: string,
    missoes: Lista<Missao>,
    missaoAtiva: Option<Missao>,
    bateria: real,
    bateriaInicial: real)

  /** The messages of the source, one constructor each. */
  datatype Resposta =
    | MissaoIniciada(tipo: string)
    | MissaoJaEmAndamento
    | PontoRegistrado
    | NenhumaMissaoParaRegistrar
    | MissaoFinalizada(tipo: string)
    | NenhumaMissaoParaFinalizar

  /** The declined actions: the source's warning and error messages. */
  predicate Recusada(r: Resposta) {
    r.MissaoJaEmAndamento? || r.NenhumaMissaoParaRegistrar? || r.NenhumaMissaoParaFinalizar?
  }

  datatype Passo = Passo(drone: Drone, resposta: Resposta)

  /** A mission's points are well formed: a valid list whose battery levels lie in [0, 100] and
      never rise from one point to the next. */
  ghost predicate MissaoBemFormada(m: Missao) {
    && Valida(m.pontosVoo)
    && BateriasNaoCrescentes(Pontos(m))
    && (forall i :: 0 <= i < |Pontos(m)| ==> 0.0 <= Pontos(m)[i].nivelBateria <= BateriaCheia)
  }

  /** The drone's invariant: the battery is in [0, 100]; completed missions are ended and well
      formed; the active mission is open, well formed, and its last point carries the drone's
      current battery level. */
  ghost predicate DroneValido(d: Drone) {
    && d.bateriaInicial == BateriaCheia
    && 0.0 <= d.bateria <= d.bateriaInicial
    && Valida(d.missoes)
    && (forall m :: m in Conteudo(d.missoes) ==> MissaoBemFormada(m) && m.dataFim.Some?)
    && (d.missaoAtiva.Some? ==>
          var m := d.missaoAtiva.value;
          && MissaoBemFormada(m)
          && m.dataFim.None?
          && (Pontos(m) != [] ==> Pontos(m)[|Pontos(m)| - 1].nivelBateria == d.bateria))
  }

  /** `Drone(identificador, modelo)`: full battery, idle, empty history. */
  function NovoDrone(identificador: string, modelo: string): (d: Drone)
    ensures DroneValido(d)
    ensures d.bateria == 100.0 && d.bateriaInicial == 100.0
    ensures d.missaoAtiva == None
    ensures Conteudo(d.missoes) == []
    ensures d.identificador == identificador && d.modelo == modelo
  {
    Drone(identificador, modelo, Vazia(), None, BateriaCheia, BateriaCheia)
  }

  /** `iniciar_missao`: declined while a mission is active; otherwise resets the battery and
      installs a fresh mission. The mission's identifier and start time are parameters. */
  function IniciarMissao(d: Drone, tipo: string, id: string, agora: int): (s: Passo)
    requires DroneValido(d)
    ensures DroneValido(s.drone)
    ensures Recusada(s.resposta) <==> d.missaoAtiva.Some?
    ensures d.missaoAtiva.Some? ==> s.resposta == MissaoJaEmAndamento && s.drone == d
    ensures d.missaoAtiva.None? ==>
      && s.resposta == MissaoIniciada(tipo)
      && s.drone.bateria == d.bateriaInicial
      && s.drone.missaoAtiva.Some?
      && s.drone.missaoAtiva.value.tipo == tipo
      && s.drone.missaoAtiva.value.id == id
      && s.drone.missaoAtiva.value.dataInicio == agora
      && s.drone.missaoAtiva.value.dataFim == None
      && Pontos(s.drone.missaoAtiva.value) == []
      && s.drone.missoes == d.missoes
      && s.drone.(bateria := d.bateria, missaoAtiva := d.missaoAtiva) == d
  {
    if d.missaoAtiva.Some? then Passo(d, MissaoJaEmAndamento)
    else
      var nova := NovaMissao(id, tipo, agora);
      Passo(d.(bateria := d.bateriaInicial, missaoAtiva := Some(nova)), MissaoIniciada(tipo))
  }

  /** `max(0, bateria - consumo)`: the least non-negative level not below `bateria - consumo`. */
  function BateriaAposConsumo(bateria: real, consumo: real): (r: real)
    ensures 0.0 <= r && bateria - consumo <= r
    ensures r == 0.0 || r == bateria - consumo
  {
    if 0.0 < bateria - consumo then bateria - consumo else 0.0
  }

  /** `registrar_ponto_voo`: declined without an active mission; otherwise draws the consumption
      (the parameter `consumo`, in [0.5, 2.0]), lowers the battery clamped at zero, and records a
      point carrying the new level. */
  function RegistrarPontoVoo(d: Drone, x: int, y: int, env: DadosAmbientais, consumo: real, tel: Telemetria): (s: Passo)
    requires DroneValido(d)
    requires ConsumoMinimo <= consumo <= ConsumoMaximo && TelemetriaValida(tel)
    ensures DroneValido(s.drone)
    ensures Recusada(s.resposta) <==> d.missaoAtiva.None?
    ensures d.missaoAtiva.None? ==> s.resposta == NenhumaMissaoParaRegistrar && s.drone == d
    ensures d.missaoAtiva.Some? ==>
      && s.resposta == PontoRegistrado
      && (d.bateria - consumo <= 0.0 ==> s.drone.bateria == 0.0)
      && (0.0 < d.bateria - consumo ==> s.drone.bateria == d.bateria - consumo)
      && 0.0 <= s.drone.bateria <= d.bateria
      && (0.0 < d.bateria ==> s.drone.bateria < d.bateria)
      && s.drone.missoes == d.missoes
      && s.drone.missaoAtiva.Some?
      && var antes := Pontos(d.missaoAtiva.value);
         var depois := Pontos(s.drone.missaoAtiva.value);
         && |depois| == |antes| + 1
         && depois[..|antes|] == antes
         && depois[|antes|].coordenadas == Coordenadas(x, y)
         && depois[|antes|].nivelBateria == s.drone.bateria
    ensures d.missaoAtiva.Some? ==>
      var bateria := BateriaAposConsumo(d.bateria, consumo);
      s.drone == d.(bateria := bateria,
                    missaoAtiva := Some(RegistrarPonto(d.missaoAtiva.value, x, y, bateria, env, tel)))
  {
    if d.missaoAtiva.None? then Passo(d, NenhumaMissaoParaRegistrar)
    else
      var bateria := BateriaAposConsumo(d.bateria, consumo);
      var m := RegistrarPonto(d.missaoAtiva.value, x, y, bateria, env, tel);
      RegistroMantemValidade(d, x, y, env, consumo, tel);
      Passo(d.(bateria := bateria, missaoAtiva := Some(m)), PontoRegistrado)
  }

  /** Recording a point keeps the drone invariant: the new level is in [0, 100], not above the
      previous one, and it is the level the appended point carries. */
  lemma RegistroMantemValidade(d: Drone, x: int, y: int, env: DadosAmbientais, consumo: real, tel: Telemetria)
    requires DroneValido(d) && d.missaoAtiva.Some?
    requires ConsumoMinimo <= consumo <= ConsumoMaximo && TelemetriaValida(tel)
    ensures
      var bateria := BateriaAposConsumo(d.bateria, consumo);
      DroneValido(d.(bateria := bateria,
                     missaoAtiva := Some(RegistrarPonto(d.missaoAtiva.value, x, y, bateria, env, tel))))
  {
  }

  /** `finalizar_missao`: declined without an active mission; otherwise stamps the end time,
      appends the mission to the history and clears the active slot. */
  function FinalizarMissaoAtiva(d: Drone, agora: int): (s: Passo)
    requires DroneValido(d)
    ensures DroneValido(s.drone)
    ensures Recusada(s.resposta) <==> d.missaoAtiva.None?
    ensures d.missaoAtiva.None? ==> s.resposta == NenhumaMissaoParaFinalizar && s.drone == d
    ensures d.missaoAtiva.Some? ==>
      && s.resposta == MissaoFinalizada(d.missaoAtiva.value.tipo)
      && s.drone.missaoAtiva == None
      && s.drone.bateria == d.bateria
      && Conteudo(s.drone.missoes) == Conteudo(d.missoes) + [FinalizarMissao(d.missaoAtiva.value, agora)]
      && Conteudo(s.drone.missoes)[|Conteudo(d.missoes)|].dataFim == Some(agora)
      && Pontos(Conteudo(s.drone.missoes)[|Conteudo(d.missoes)|]) == Pontos(d.missaoAtiva.value)
      && s.drone.(missoes := d.missoes, missaoAtiva := d.missaoAtiva) == d
  {
    if d.missaoAtiva.None? then Passo(d, NenhumaMissaoParaFinalizar)
    else
      var finalizada := FinalizarMissao(d.missaoAtiva.value, agora);
      var missoes := InserirFinal(d.missoes, finalizada);
      Passo(d.(missoes := missoes, missaoAtiva := None), MissaoFinalizada(finalizada.tipo))
  }

  /** The external commands that drive the drone, with the random draws and the clock as data. */
  datatype Evento =
    | Iniciar(tipo: string, id: string, agora: int)
    | Registrar(x: int, y: int, env: DadosAmbientais, consumo: real, tel: Telemetria)
    | Finalizar(agora: int)

  predicate EventoValido(e: Evento) {
    e.Registrar? ==> ConsumoMinimo <= e.consumo <= ConsumoMaximo && TelemetriaValida(e.tel)
  }

  function Aplicar(d: Drone, e: Evento): Passo
    requires DroneValido(d) && EventoValido(e)
  {
    match e
    case Iniciar(tipo, id, agora) => IniciarMissao(d, tipo, id, agora)
    case Registrar(x, y, env, consumo, tel) => RegistrarPontoVoo(d, x, y, env, consumo, tel)
    case Finalizar(agora) => FinalizarMissaoAtiva(d, agora)
  }

  /** Runs a sequence of commands; the invariant holds after any of them, and the history only
      ever grows at its end. */
  function Executar(d: Drone, es: seq<Evento>): (d': Drone)
    requires DroneValido(d) && forall i :: 0 <= i < |es| ==> EventoValido(es[i])
    ensures DroneValido(d')
    ensures |Conteudo(d.missoes)| <= |Conteudo(d'.missoes)|
    ensures Conteudo(d'.missoes)[..|Conteudo(d.missoes)|] == Conteudo(d.missoes)
    decreases |es|
  {
    if |es| == 0 then d
    else
      var s := Aplicar(d, es[0]);
      var d' := Executar(s.drone, es[1..]);
      assert Conteudo(s.drone.missoes)[..|Conteudo(d.missoes)|] == Conteudo(d.missoes);
      d'
  }

  lemma PrefixoTransitivo<T>(a: seq<T>, b: seq<T>, c: seq<T>)
    requires |a| <= |b| <= |c| && b[..|a|] == a && c[..|b|] == b
    ensures c[..|a|] == a
  {
    assert c[..|a|] == c[..|b|][..|a|];
  }

  /** One recording command during an active mission, seen through `Aplicar`. */
  lemma AplicarRegistro(d: Drone, e: Evento)
    requires DroneValido(d) && d.missaoAtiva.Some? && e.Registrar? && EventoValido(e)
    ensures DroneValido(Aplicar(d, e).drone)
    ensures Aplicar(d, e).drone.missaoAtiva.Some?
    ensures |Pontos(Aplicar(d, e).drone.missaoAtiva.value)| == |Pontos(d.missaoAtiva.value)| + 1
    ensures Pontos(Aplicar(d, e).drone.missaoAtiva.value)[..|Pontos(d.missaoAtiva.value)|] == Pontos(d.missaoAtiva.value)
    ensures Aplicar(d, e).drone.missoes == d.missoes
    ensures MesmaIdentidade(Aplicar(d, e).drone.missaoAtiva.value, d.missaoAtiva.value)
  {
  }

  /** Two snapshots of one mission: same identifier, kind and start. */
  predicate MesmaIdentidade(m1: Missao, m2: Missao) {
    m1.id == m2.id && m1.tipo == m2.tipo && m1.dataInicio == m2.dataInicio
  }

  lemma ExecutarUm(d: Drone, e: Evento)
    requires DroneValido(d) && EventoValido(e)
    ensures TodosValidos([e])
    ensures Executar(d, [e]) == Aplicar(d, e).drone
  {
    assert [e][1..] == [];
  }

  /** A run of point recordings during an active mission appends one point per command, in
      order, and leaves the history alone. */
  lemma {:induction false} RegistrosAcumulam(d: Drone, es: seq<Evento>)
    requires DroneValido(d) && d.missaoAtiva.Some?
    requires forall i :: 0 <= i < |es| ==> es[i].Registrar? && EventoValido(es[i])
    ensures Executar(d, es).missaoAtiva.Some?
    ensures |Pontos(Executar(d, es).missaoAtiva.value)| == |Pontos(d.missaoAtiva.value)| + |es|
    ensures Pontos(Executar(d, es).missaoAtiva.value)[..|Pontos(d.missaoAtiva.value)|] == Pontos(d.missaoAtiva.value)
    ensures Executar(d, es).missoes == d.missoes
    ensures MesmaIdentidade(Executar(d, es).missaoAtiva.value, d.missaoAtiva.value)
    decreases |es|
  {
    if |es| > 0 {
      AplicarRegistro(d, es[0]);
      var d1 := Aplicar(d, es[0]).drone;
      var resto := es[1..];
      assert forall i :: 0 <= i < |resto| ==> resto[i].Registrar? && EventoValido(resto[i]) by {
        forall i | 0 <= i < |resto| ensures resto[i] == es[i + 1] { }
      }
      RegistrosAcumulam(d1, resto);
      assert Executar(d, es) == Executar(d1, resto);
      PrefixoTransitivo(Pontos(d.missaoAtiva.value), Pontos(d1.missaoAtiva.value), Pontos(Executar(d1, resto).missaoAtiva.value));
    }
  }

  predicate TodosValidos(es: seq<Evento>) {
    forall i :: 0 <= i < |es| ==> EventoValido(es[i])
  }

  lemma TodosValidosConcatenados(a: seq<Evento>, b: seq<Evento>)
    requires TodosValidos(a) && TodosValidos(b)
    ensures TodosValidos(a + b)
  {
    forall i | 0 <= i < |a + b| ensures EventoValido((a + b)[i]) {
      if i >= |a| {
        assert (a + b)[i] == b[i - |a|];
      }
    }
  }

  /** Running two command sequences one after the other is running their concatenation. */
  lemma {:induction false} ExecutarConcatena(d: Drone, a: seq<Evento>, b: seq<Evento>)
    requires DroneValido(d) && TodosValidos(a) && TodosValidos(b)
    ensures TodosValidos(a + b)
    ensures Executar(d, a + b) == Executar(Executar(d, a), b)
    decreases |a|
  {
    TodosValidosConcatenados(a, b);
    if |a| == 0 {
      assert a + b == b;
    } else {
      var d1 := Aplicar(d, a[0]).drone;
      assert (a + b)[0] == a[0];
      assert (a + b)[1..] == a[1..] + b;
      assert TodosValidos(a[1..]) by {
        forall i | 0 <= i < |a[1..]| ensures a[1..][i] == a[i + 1] { }
      }
      ExecutarConcatena(d1, a[1..], b);
      assert Executar(d, a + b) == Executar(d1, a[1..] + b);
      assert Executar(d, a) == Executar(d1, a[1..]);
    }
  }

  /** The report of the most recently completed mission. */
  function UltimoRelatorio(d: Drone, agora: int, sqrt: real -> real): Relatorio
    requires DroneValido(d) && Conteudo(d.missoes) != []
  {
    var h := Conteudo(d.missoes);
    assert h[|h| - 1] in h;
    RelatorioEsperado(h[|h| - 1], agora, sqrt)
  }

  /** Ending a mission that holds N >= 1 points appends it to the history, and its report counts
      those N points, the time from its start to `fim`, and a consumption that is not negative. */
  lemma FinalizarRelata(d: Drone, fim: int, agora: int, sqrt: real -> real)
    requires DroneValido(d) && d.missaoAtiva.Some? && Pontos(d.missaoAtiva.value) != []
    ensures
      var d' := FinalizarMissaoAtiva(d, fim).drone;
      var m := d.missaoAtiva.value;
      && Conteudo(d'.missoes) != []
      && UltimoRelatorio(d', agora, sqrt).Relatorio?
      && UltimoRelatorio(d', agora, sqrt).id == m.id
      && UltimoRelatorio(d', agora, sqrt).tipo == m.tipo
      && UltimoRelatorio(d', agora, sqrt).pontosColetados == |Pontos(m)|
      && UltimoRelatorio(d', agora, sqrt).duracao == fim - m.dataInicio
      && 0.0 <= UltimoRelatorio(d', agora, sqrt).bateriaConsumida
  {
    var d' := FinalizarMissaoAtiva(d, fim).drone;
    var h := Conteudo(d'.missoes);
    var m' := h[|h| - 1];
    assert m' == FinalizarMissao(d.missaoAtiva.value, fim);
    assert m' in h;
    RelatorioContaPontos(m', agora, sqrt);
    ConsumoNaoNegativo(m', agora, sqrt);
  }

  /** Starting a mission, recording N >= 1 points and ending it appends one completed mission to
      the history, whose report counts the N points and a consumption that is not negative. */
  lemma MissaoCompletaContaPontos(d: Drone, tipo: string, id: string, inicio: int, es: seq<Evento>, fim: int, agora: int, sqrt: real -> real)
    requires DroneValido(d) && d.missaoAtiva.None? && |es| >= 1
    requires forall i :: 0 <= i < |es| ==> es[i].Registrar? && EventoValido(es[i])
    ensures TodosValidos([Iniciar(tipo, id, inicio)] + es + [Finalizar(fim)])
    ensures
      var d' := Executar(d, [Iniciar(tipo, id, inicio)] + es + [Finalizar(fim)]);
      && d'.missaoAtiva == None
      && |Conteudo(d'.missoes)| == |Conteudo(d.missoes)| + 1
      && Conteudo(d'.missoes)[..|Conteudo(d.missoes)|] == Conteudo(d.missoes)
      && UltimoRelatorio(d', agora, sqrt).Relatorio?
      && UltimoRelatorio(d', agora, sqrt).id == id
      && UltimoRelatorio(d', agora, sqrt).tipo == tipo
      && UltimoRelatorio(d', agora, sqrt).pontosColetados == |es|
      && UltimoRelatorio(d', agora, sqrt).duracao == fim - inicio
      && 0.0 <= UltimoRelatorio(d', agora, sqrt).bateriaConsumida
  {
    var ini := [Iniciar(tipo, id, inicio)];
    var fin := [Finalizar(fim)];
    assert TodosValidos(ini) && TodosValidos(fin) && TodosValidos(es);
    ExecutarConcatena(d, ini, es);
    ExecutarConcatena(d, ini + es, fin);
    var d1 := IniciarMissao(d, tipo, id, inicio).drone;
    ExecutarUm(d, ini[0]);
    assert Executar(d, ini) == d1;
    RegistrosAcumulam(d1, es);
    var d2 := Executar(d1, es);
    assert Executar(d, ini + es) == d2;
    var d3 := FinalizarMissaoAtiva(d2, fim).drone;
    ExecutarUm(d2, fin[0]);
    assert Executar(d2, fin) == d3;
    FinalizarRelata(d2, fim, agora, sqrt);
  }

  /** In every reachable state, the report of any completed mission, and of the active one, shows
      a battery consumption that is not negative. */
  lemma ConsumoNaoNegativoNoHistorico(d: Drone, agora: int, sqrt: real -> real)
    requires DroneValido(d)
    ensures forall m :: m in Conteudo(d.missoes) && Pontos(m) != [] ==>
      0.0 <= RelatorioEsperado(m, agora, sqrt).bateriaConsumida
    ensures d.missaoAtiva.Some? && Pontos(d.missaoAtiva.value) != [] ==>
      0.0 <= RelatorioEsperado(d.missaoAtiva.value, agora, sqrt).bateriaConsumida
  {
    forall m | m in Conteudo(d.missoes) && Pontos(m) != []
      ensures 0.0 <= RelatorioEsperado(m, agora, sqrt).bateriaConsumida
    {
      ConsumoNaoNegativo(m, agora, sqrt);
    }
    if d.missaoAtiva.Some? && Pontos(d.missaoAtiva.value) != [] {
      ConsumoNaoNegativo(d.missaoAtiva.value, agora, sqrt);
    }
  }
}
