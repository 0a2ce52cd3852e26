# Drone mission simulator — core model

A Dafny model of the mission engine of a drone flight simulator. A `Drone` runs one mission at a
time; each `Missao` records its flight points (`PontoDeVoo`) in a hand-written singly-linked list
(`ListaEncadeada`) with head (`inicio`) and tail (`fim`) pointers, and completed missions go into a
second linked list, the drone's history. A mission's report (`gerar_relatorio`) walks its point
list and computes the distance flown, the battery consumed, the energy efficiency, the averages of
the environmental readings and the distribution of air-quality categories.

Files and modules:

- `options.dfy` — `Options`: `Option`, the model of Python's `None`.
- `lista_encadeada.dfy` — `ListaEncadeada`: the linked list. Node identity is a number `ref`, so
  `inicio` and `fim` are pointers that must be followed (`Deref`); `Valida` is the representation
  invariant (first/last node, `None` exactly when empty). `RemovePrimeiro` is the reference
  definition the looping `Remover` is proved against.
- `ponto_voo.dfy` — `PontoVoo`: coordinates and Euclidean distance, the flight point with its
  environmental defaults and telemetry ranges, and the air-quality classification.
- `missao.dfy` — `Missoes`: mission life cycle and the report. `RelatorioEsperado` defines the
  report from recursive reference definitions (`DistanciaTotal`, `Soma`, `Contagem`,
  `Frequencias`); the method `GerarRelatorio` runs the source's single traversal and is proved
  to produce exactly that report.
- `drone.dfy` — `Drones`: the drone as a two-state machine (idle, or one active mission). Each
  command returns the new state and the answer (`Resposta`) the source gives as a message.
  `DroneValido` is the invariant every reachable drone satisfies: `NovoDrone` establishes it and
  every command keeps it, which is why the commands take it as their precondition. `Executar` runs
  a sequence of commands.

Square root is a parameter `sqrt` of the distance functions; lemmas that need its meaning assume
`EhRaiz(sqrt)` (non-negative, squares back to its argument, and undoes squaring on non-negative
numbers). The random draws (battery consumption, telemetry), mission identifiers and the clock are
parameters as well.

`Missao.registrar_ponto` and `Missao.finalizar_missao` have no guard for an ended mission, and the
model keeps it that way: ending a mission twice simply restamps the end time. The pollution index
that decides a point's category is compared with integer guards that leave gaps for fractional
values (see Findings). The report classifies points with the guards as written
(`CategoriaDoPonto`); on the integer indices a point holds, they agree with the contiguous bands.

## Model

| member | source | states |
|---|---|---|
| ListaEncadeada.Vazia | core/lista_encadeada.py:11-13 | a new list has no elements and both pointers are `None` |
| ListaEncadeada.EstaVazia | core/lista_encadeada.py:15-16 | testing only the head pointer answers true exactly when the list holds no elements |
| ListaEncadeada.InserirFinal | core/lista_encadeada.py:18-27 | the contents become the old contents followed by the new element; existing nodes are untouched; `inicio` moves only when the list was empty; `fim` now leads to the new element; the invariant is kept |
| ListaEncadeada.InserirFinalCresceUm | core/lista_encadeada.py:18-27 | corollary of `InserirFinal`'s contract, element by element: the size grows by one, every earlier element stays in its place and the new one is last |
| ListaEncadeada.PonteirosDasPontas | core/missao.py:46-47 | in a non-empty valid list, following `inicio` reaches the first element and following `fim` the last |
| ListaEncadeada.RemovePrimeiroNaPrimeiraOcorrencia | core/lista_encadeada.py:37-51 | when position k holds the first matching element, removal yields the list without exactly that element, order kept |
| ListaEncadeada.RemovePrimeiroSemOcorrencia | core/lista_encadeada.py:37-51 | when no element matches, removal changes nothing |
| ListaEncadeada.Remover | core/lista_encadeada.py:29-51 | reports true exactly when some element has the id; the contents become the reference removal of the first match; size drops by one on success and the list is unchanged otherwise; the repaired `inicio` and `fim` keep the invariant |
| ListaEncadeada.ToList | core/lista_encadeada.py:53-60 | the traversal from `inicio` along `proximo` returns the elements in insertion order |
| ListaEncadeada.Tamanho | core/lista_encadeada.py:62-68 | the traversal counts exactly the number of elements |
| PontoVoo.CalcularDistancia | core/ponto_voo.py:5-10 | with a true square root, the distance is a non-negative number whose square is the sum of the squared coordinate differences |
| PontoVoo.DistanciaEuclidiana | core/ponto_voo.py:5-10 | corollary of `CalcularDistancia`'s contract, written out over the coordinates |
| PontoVoo.DistanciaSimetrica | core/ponto_voo.py:5-10 | the distance from a to b equals the distance from b to a |
| PontoVoo.DistanciaNulaSeIguais | core/ponto_voo.py:5-10 | the distance is zero if and only if the two cells are the same |
| PontoVoo.NovoPonto | core/ponto_voo.py:14-34 | a point keeps its coordinates, battery level and in-range telemetry; each environmental field takes the supplied value, or its default when absent |
| PontoVoo.GerarTelemetriaAleatoria | core/ponto_voo.py:37-39 | the stored battery level becomes the given level clamped at zero, and nothing else about the point changes |
| PontoVoo.CategoriaPoluicao | core/ponto_voo.py:41-55 | for integer indices each category holds on exactly its band: up to 40, 41–80, 81–120, 121–200, 201–300, above 300 |
| PontoVoo.CategoriaComCor | core/ponto_voo.py:41-55 | the pair returned is the category's name and its colour; the colour is green exactly up to 40 and dark red exactly above 300 |
| PontoVoo.CategoriaDoPonto | core/ponto_voo.py:41-55 | a point's category, by the guards as written, is the contiguous band its integer index falls in |
| PontoVoo.CategoriaPoluicaoReal | core/ponto_voo.py:44-55 | the guards as written, on a real index, answer "Perigosa" exactly above 300 or strictly inside one of the gaps (40, 41), (80, 81), (120, 121), (200, 201) |
| PontoVoo.FronteirasDasFaixas | core/ponto_voo.py:44-55 | the category names on both sides of every band boundary |
| PontoVoo.SeveridadeMonotona | core/ponto_voo.py:44-55 | a higher integer index never gets a milder category |
| PontoVoo.NomeInjetivo | core/missao.py:67-68 | distinct categories have distinct names, so keying the distribution by name counts each category separately |
| PontoVoo.LacunaEntreFaixas | core/ponto_voo.py:44-55 | with a fractional index the guards misclassify: 40.5 is "Perigosa" while 41 is "Moderada" |
| PontoVoo.CategoriaPorFaixasMonotona | core/ponto_voo.py:44-55 | with contiguous bands a higher index never gets a milder category, fractional indices included |
| PontoVoo.FaixasConcordamNosInteiros | core/ponto_voo.py:44-55 | the guards as written and the contiguous bands agree with the integer classification on every integer |
| Missoes.NovaMissao | core/missao.py:10-16 | a new mission carries its id, type and start time, is open and has no points |
| Missoes.RegistrarPonto | core/missao.py:18-21 | recording appends exactly one point, built from the given coordinates, battery and readings, after the existing ones; nothing else in the mission changes |
| Missoes.FinalizarMissao | core/missao.py:23-24 | ending stamps the end time and changes nothing else |
| Missoes.TempoTotal | core/missao.py:26-28 | an ended mission lasts from its start to its end time; an open one from its start to the clock |
| Missoes.DuracaoAposFinalizar | core/missao.py:23-28 | ending at `fim` fixes the duration to `fim` minus the start; for an open mission that is the duration it showed when the clock read `fim`, whatever the clock reads later |
| Missoes.DistanciaTotalAoAcrescentar | core/missao.py:52-59 | appending a point adds the leg from the previous last point (nothing for the first point) |
| Missoes.SomaAoAcrescentar | core/missao.py:61-64 | appending a point adds its reading to the sum |
| Missoes.ContagemAoAcrescentar | core/missao.py:66-68 | appending a point adds one to its category's count only |
| Missoes.FrequenciasAoAcrescentar | core/missao.py:66-68 | the distribution after appending a point is the old one with that point's category incremented |
| Missoes.Visitar | core/missao.py:52-72 | one loop step counts one more point, adds exactly the distance from the previous point to this one (nothing for the first; never negative with a true square root), adds each reading to its sum, and adds one occurrence of the point's category, leaving the other categories alone |
| Missoes.Concluir | core/missao.py:74-92 | the report built from the accumulators carries the id, type and duration, the count and distance; consumption is first battery minus last; efficiency times distance is the consumption (0 without distance); each average times the count is its sum |
| Missoes.VisitarEstendePrefixo | core/missao.py:52-72 | one loop step turns the accumulators of a prefix into those of the prefix one point longer |
| Missoes.GerarRelatorio | core/missao.py:30-93 | answers "no points" exactly when the mission has none; otherwise the report carries the mission's id and type and counts every point; and the single traversal with its accumulators yields exactly the report defined from the reference sums, counts and distances |
| Missoes.RelatorioSemPontos | core/missao.py:35-36 | the "no points" answer is given if and only if the mission has no points |
| Missoes.RelatorioContaPontos | core/missao.py:82-86 | the report carries the mission's id and type and counts every point |
| Missoes.DistanciaDeUmPonto | core/missao.py:56-59 | a single point contributes no distance |
| Missoes.DistanciaTotalNaoNegativa | core/missao.py:52-59 | the distance flown is never negative |
| Missoes.DistanciaAoRegistrar | core/missao.py:18-21 | recording a point extends the distance flown by the leg from the previous point |
| Missoes.ConsumoEEficiencia | core/missao.py:75-76 | consumption is the first point's battery minus the last's; efficiency is consumption per unit distance, or 0 without distance |
| Missoes.MediasDoRelatorio | core/missao.py:90-92 | corollary of the report's definition: each average times the number of points equals that reading's sum |
| Missoes.ContagensSomamTamanho | core/missao.py:66-68 | the six category counts add up to the number of points |
| Missoes.ContagemPositiva | core/missao.py:78-80 | a category's count is positive exactly when some point falls in it |
| Missoes.DistribuicaoDoRelatorio | core/missao.py:66-80 | the distribution lists exactly the categories that occur, each with its count of at least one, and the counts total the number of points |
| Missoes.PrimeiraBateriaMaiorQueUltima | core/missao.py:46-47 | when battery levels never rise along the points, the last is at most the first |
| Missoes.ConsumoNaoNegativo | core/missao.py:75 | with non-rising battery levels the battery consumed is not negative |
| Missoes.CenarioLevantamento | core/missao.py:30-93 | points (0,0), (3,0), (3,4) at 100, 98, 96 give 3 points, distance 7, consumption 4, efficiency 4/7 and the start-to-end duration |
| Drones.NovoDrone | core/drone.py:8-16 | a new drone is idle, has an empty history and a full battery of 100, and satisfies the invariant |
| Drones.IniciarMissao | core/drone.py:18-25 | declined, with nothing changed, exactly when a mission is active; otherwise the battery is reset to full and a new open mission without points becomes active; nothing else changes |
| Drones.BateriaAposConsumo | core/drone.py:33 | the new level is the least non-negative value not below the old level minus the consumption |
| Drones.RegistrarPontoVoo | core/drone.py:27-37 | declined, with nothing changed, exactly when no mission is active; otherwise the battery drops by the consumption clamped at zero, strictly when it was positive, and the active mission becomes itself with one point appended, built from the given coordinates, readings and telemetry and carrying the new level; nothing else changes |
| Drones.FinalizarMissaoAtiva | core/drone.py:39-48 | declined, with nothing changed, exactly when no mission is active; otherwise the ended mission, with its points, is appended to the history and the drone becomes idle; nothing else changes |
| Drones.Executar | core/drone.py:18-48 | any sequence of commands keeps the invariant, and the history only grows at its end |
| Drones.RegistrosAcumulam | core/drone.py:27-37 | N recordings during an active mission add exactly N points after the existing ones and leave the history alone |
| Drones.ExecutarConcatena | core/drone.py:18-48 | running two command sequences one after the other equals running their concatenation |
| Drones.FinalizarRelata | core/drone.py:39-48 | after ending a mission with points, the history's last report carries its id, type, point count, start-to-end duration and a non-negative consumption |
| Drones.MissaoCompletaContaPontos | core/drone.py:18-48 | start, N ≥ 1 recordings and end add one mission to the history whose report counts the N points, with non-negative consumption |
| Drones.ConsumoNaoNegativoNoHistorico | core/missao.py:75 | in every reachable state, every report of the history and of the active mission shows a non-negative consumption |

## Left out

- Graphical interface and program entry point (`gui/interface.py`, `main.py`): presentation and
  event handling, including the interface's direct edits of drone fields, are not part of this model.
- Randomness: the consumption drawn in [0.5, 2.0] and the telemetry values are parameters
  (`consumo`, `tel`); `TelemetriaValida` states the ranges the draws come from.
- Clock and identifiers: `datetime.now()` and the timestamp-based mission id are parameters;
  times are whole seconds, so the duration is an integer.
- Rounding and text formatting of the report (two and four decimals, the joined distribution
  string, `__str__`): the report holds the exact numbers and the distribution as a map.
- `math.sqrt` and floating-point arithmetic: distances and batteries are exact reals; square root
  is a parameter assumed correct through `EhRaiz`.
- Answer messages: each is a `Resposta` constructor instead of its text.
- ListaEncadeada.Remover: elements without an `id` are skipped, as in the source (`idDe` gives
  `None`, which never matches). The source compares with `dado.id`, so an argument `dado` without
  an `id` raises an `AttributeError` once the walk reaches an element that has one; the model
  takes the key `chave` directly and does not express that error.
- PontoVoo.NovoPonto: the pollution index is an integer, as the map produces it; the real-valued
  behaviour is modelled separately in `CategoriaPoluicaoReal`. Tall-building presence is either a
  flag or a label, since the source stores whichever it is given.
- Drones.IniciarMissao, Drones.RegistrarPontoVoo, Drones.FinalizarMissaoAtiva: they require the
  drone invariant, which every drone built by `NovoDrone` and driven by these commands satisfies;
  drones whose fields were edited from outside are not covered.

## Findings

| source | as written | input that shows it | evidently intended | confidence | as-written member | corrected member |
|---|---|---|---|---|---|---|
| core/ponto_voo.py:44-55 | bands are tested with integer bounds `41 <= p <= 80`, …, leaving gaps between 40 and 41, 80 and 81, and so on, which fall through to "Perigosa" | index 40.5 gives "Perigosa" while 41 gives "Moderada" | contiguous bands: up to 40, up to 80, up to 120, up to 200, up to 300, then "Perigosa" | medium, not executed; the map supplies integer indices, so only a fractional index supplied from elsewhere triggers it | PontoVoo.LacunaEntreFaixas | PontoVoo.CategoriaPorFaixasMonotona |
