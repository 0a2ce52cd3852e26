/** A flight sample (`PontoDeVoo`), the grid distance between two cells, and the six-band
    air-quality classification of a sample's pollution index. */
module PontoVoo {
  import opened Options

  /** A grid cell, `(x, y)`. */
  datatype Coordenadas = Coordenadas(x: int, y: int)

  function Quadrado(r: real): real {
    r * r
  }

  /** What `math.sqrt` promises: on a non-negative argument, a non-negative number whose square is
      the argument; in particular the root of a square is its non-negative base. (The second
      conjunct follows from the first over the reals; it is stated because the solver does not
      derive it.) The square root is a parameter of the model, and lemmas that rely on it take
      this as a hypothesis. */
  ghost predicate EhRaiz(sqrt: real -> real) {
    && (forall v: real :: 0.0 <= v ==> 0.0 <= sqrt(v) && Quadrado(sqrt(v)) == v)
    && (forall r: real :: 0.0 <= r ==> sqrt(Quadrado(r)) == r)
  }

  /** The squared Euclidean distance between two cells. */
  function DistanciaAoQuadrado(c1: Coordenadas, c2: Coordenadas): int {
    (c2.x - c1.x) * (c2.x - c1.x) + (c2.y - c1.y) * (c2.y - c1.y)
  }

  /** `calcular_distancia`: the Euclidean distance between two cells. With a true square root it
      is a non-negative number whose square is the sum of the squared offsets. */
  function CalcularDistancia(c1: Coordenadas, c2: Coordenadas, sqrt: real -> real): (d: real)
    ensures EhRaiz(sqrt) ==> 0.0 <= d && Quadrado(d) == DistanciaAoQuadrado(c1, c2) as real
  {
    QuadradoNaoNegativo(c2.x - c1.x);
    QuadradoNaoNegativo(c2.y - c1.y);
    sqrt(DistanciaAoQuadrado(c1, c2) as real)
  }

  /** Corollary of `CalcularDistancia`'s contract, written out over the coordinates. */
  lemma DistanciaEuclidiana(c1: Coordenadas, c2: Coordenadas, sqrt: real -> real)
    requires EhRaiz(sqrt)
    ensures 0.0 <= CalcularDistancia(c1, c2, sqrt)
    ensures Quadrado(CalcularDistancia(c1, c2, sqrt))
            == ((c2.x - c1.x) * (c2.x - c1.x) + (c2.y - c1.y) * (c2.y - c1.y)) as real
  {
    QuadradoNaoNegativo(c2.x - c1.x);
    QuadradoNaoNegativo(c2.y - c1.y);
  }

  /** The distance does not depend on the order of its arguments. */
  lemma DistanciaSimetrica(c1: Coordenadas, c2: Coordenadas, sqrt: real -> real)
    ensures CalcularDistancia(c1, c2, sqrt) == CalcularDistancia(c2, c1, sqrt)
  {
    assert (c2.x - c1.x) * (c2.x - c1.x) == (c1.x - c2.x) * (c1.x - c2.x);
    assert (c2.y - c1.y) * (c2.y - c1.y) == (c1.y - c2.y) * (c1.y - c2.y);
  }

  lemma QuadradoNaoNegativo(a: int)
    ensures 0 <= a * a
  {
    if a < 0 {
      assert a * a == (-a) * (-a);
    }
  }

  lemma QuadradoNulo(a: int)
    requires a * a == 0
    ensures a == 0
  {
    if a != 0 {
      QuadradoNaoNegativo(a - 1);
      assert a * a == (a - 1) * (a - 1) + 2 * a - 1;
      if a < 0 {
        assert a * a == (a + 1) * (a + 1) - 2 * a - 1;
        QuadradoNaoNegativo(a + 1);
      }
    }
  }

  /** The distance is zero exactly between a cell and itself. */
  lemma DistanciaNulaSeIguais(c1: Coordenadas, c2: Coordenadas, sqrt: real -> real)
    requires EhRaiz(sqrt)
    ensures CalcularDistancia(c1, c2, sqrt) == 0.0 <==> c1 == c2
  {
    var dx := c2.x - c1.x;
    var dy := c2.y - c1.y;
    var d := CalcularDistancia(c1, c2, sqrt);
    DistanciaEuclidiana(c1, c2, sqrt);
    QuadradoNaoNegativo(dx);
    QuadradoNaoNegativo(dy);
    if d == 0.0 {
      assert Quadrado(0.0) == 0.0;
      assert dx * dx + dy * dy == 0;
      QuadradoNulo(dx);
      QuadradoNulo(dy);
    }
    if c1 == c2 {
      assert DistanciaAoQuadrado(c1, c2) == 0;
      assert sqrt(Quadrado(0.0)) == 0.0;
    }
  }

  /** The map's value for tall structures: a boolean from the map generator, or the textual
      default "não" when the field is absent. */
  datatype ConstrucoesAltas = Presenca(b: bool) | Rotulo(texto: string)

  /** The environmental bundle passed as keyword arguments; `None` marks an absent key. */
  datatype DadosAmbientais = DadosAmbientais(
    tipoArea: Option<string>,
    densidadePopulacional: Option<real>,
    presencaAreasVerdes: Option<real>,
    indicePoluicaoAr: Option<int>,
    presencaConstrucoesAltas: Option<ConstrucoesAltas>,
    sinalGps: Option<string>,
    intensidadeRuido: Option<real>)

  const AreaPadrao: string := "desconhecida"
  const DensidadePadrao: real := 0.0
  const AreasVerdesPadrao: real := 0.0
  const PoluicaoPadrao: int := 0
  const ConstrucoesAltasPadrao: ConstrucoesAltas := Rotulo("não")
  const GpsPadrao: string := "forte"
  const RuidoPadrao: real := 50.0

  /** The synthetic telemetry drawn when a point is built. */
  datatype Telemetria = Telemetria(
    altitude: int,
    velocidade: int,
    direcaoVento: string,
    temperaturaAmbiente: int,
    statusCarga: string,
    statusCamera: string,
    numFotosRegistradas: int)

  const AltitudeMin: int := 30
  const AltitudeMax: int := 150
  const VelocidadeMin: int := 5
  const VelocidadeMax: int := 30
  const DirecoesVento: seq<string> := ["N", "NE", "E", "SE", "S", "SO", "O", "NO"]
  const TemperaturaMin: int := 15
  const TemperaturaMax: int := 35
  const StatusCarga: seq<string> := ["com pacote", "sem pacote"]
  const StatusCamera: seq<string> := ["ligada", "desligada"]
  const FotosMin: int := 0
  const FotosMax: int := 5

  /** The ranges the random draws at construction come from. */
  predicate TelemetriaValida(t: Telemetria) {
    && AltitudeMin <= t.altitude <= AltitudeMax
    && VelocidadeMin <= t.velocidade <= VelocidadeMax
    && t.direcaoVento in DirecoesVento
    && TemperaturaMin <= t.temperaturaAmbiente <= TemperaturaMax
    && t.statusCarga in StatusCarga
    && t.statusCamera in StatusCamera
    && FotosMin <= t.numFotosRegistradas <= FotosMax
  }

  datatype PontoDeVoo = PontoDeVoo(
    coordenadas: Coordenadas,
    nivelBateria: real,
    telemetria: Telemetria,
    tipoArea: string,
    densidadePopulacional: real,
    presencaAreasVerdes: real,
    indicePoluicaoAr: int,
    presencaConstrucoesAltas: ConstrucoesAltas,
    sinalGps: string,
    intensidadeRuido: real)

  /** `PontoDeVoo(x, y, nivel_bateria, **environmental_data)`: the telemetry draws are the
      parameter `tel`; every absent environmental key takes its neutral default. */
  function NovoPonto(x: int, y: int, nivelBateria: real, env: DadosAmbientais, tel: Telemetria): (p: PontoDeVoo)
    requires TelemetriaValida(tel)
    ensures p.coordenadas == Coordenadas(x, y) && p.nivelBateria == nivelBateria
    ensures p.telemetria == tel && TelemetriaValida(p.telemetria)
    ensures env.tipoArea == None ==> p.tipoArea == "desconhecida"
    ensures env.densidadePopulacional == None ==> p.densidadePopulacional == 0.0
    ensures env.presencaAreasVerdes == None ==> p.presencaAreasVerdes == 0.0
    ensures env.indicePoluicaoAr == None ==> p.indicePoluicaoAr == 0
    ensures env.presencaConstrucoesAltas == None ==> p.presencaConstrucoesAltas == Rotulo("não")
    ensures env.sinalGps == None ==> p.sinalGps == "forte"
    ensures env.intensidadeRuido == None ==> p.intensidadeRuido == 50.0
    ensures env.tipoArea.Some? ==> p.tipoArea == env.tipoArea.value
    ensures env.densidadePopulacional.Some? ==> p.densidadePopulacional == env.densidadePopulacional.value
    ensures env.presencaAreasVerdes.Some? ==> p.presencaAreasVerdes == env.presencaAreasVerdes.value
    ensures env.indicePoluicaoAr.Some? ==> p.indicePoluicaoAr == env.indicePoluicaoAr.value
    ensures env.presencaConstrucoesAltas.Some? ==> p.presencaConstrucoesAltas == env.presencaConstrucoesAltas.value
    ensures env.sinalGps.Some? ==> p.sinalGps == env.sinalGps.value
    ensures env.intensidadeRuido.Some? ==> p.intensidadeRuido == env.intensidadeRuido.value
  {
    PontoDeVoo(
      Coordenadas(x, y),
      nivelBateria,
      tel,
      env.tipoArea.GetOr(AreaPadrao),
      env.densidadePopulacional.GetOr(DensidadePadrao),
      env.presencaAreasVerdes.GetOr(AreasVerdesPadrao),
      env.indicePoluicaoAr.GetOr(PoluicaoPadrao),
      env.presencaConstrucoesAltas.GetOr(ConstrucoesAltasPadrao),
      env.sinalGps.GetOr(GpsPadrao),
      env.intensidadeRuido.GetOr(RuidoPadrao))
  }

  /** `gerar_telemetria_aleatoria`: overwrites the battery level, clamped below at zero. */
  function GerarTelemetriaAleatoria(p: PontoDeVoo, bateriaAtual: real): (p': PontoDeVoo)
    ensures 0.0 <= p'.nivelBateria
    ensures 0.0 <= bateriaAtual ==> p'.nivelBateria == bateriaAtual
    ensures bateriaAtual < 0.0 ==> p'.nivelBateria == 0.0
    ensures p'.(nivelBateria := p.nivelBateria) == p
  {
    p.(nivelBateria := if 0.0 < bateriaAtual then bateriaAtual else 0.0)
  }

  /** The air-quality bands, from best to worst. */
  datatype Categoria = Otima | Moderada | InsalubreSensiveis | Insalubre | MuitoInsalubre | Perigosa

  const TodasCategorias: set<Categoria> :=
    {Otima, Moderada, InsalubreSensiveis, Insalubre, MuitoInsalubre, Perigosa}

  /** The category's name as the report shows it. */
  function Nome(c: Categoria): string {
    match c
    case Otima => "Ótima"
    case Moderada => "Moderada"
    case InsalubreSensiveis => "Insalubre (sensíveis)"
    case Insalubre => "Insalubre"
    case MuitoInsalubre => "Muito insalubre"
    case Perigosa => "Perigosa"
  }

  /** The colour hint paired with the category. */
  function Cor(c: Categoria): string {
    match c
    case Otima => "#00FF00"
    case Moderada => "#FFFF00"
    case InsalubreSensiveis => "#FFA500"
    case Insalubre => "#FF0000"
    case MuitoInsalubre => "#800080"
    case Perigosa => "#8B0000"
  }

  /** Severity rank: 0 for the best band up to 5 for the worst. */
  function Severidade(c: Categoria): nat {
    match c
    case Otima => 0
    case Moderada => 1
    case InsalubreSensiveis => 2
    case Insalubre => 3
    case MuitoInsalubre => 4
    case Perigosa => 5
  }

  /** `categoria_poluicao` on an integer index, with the source's chain of guards: each category
      holds on exactly one band of integer indices. */
  function CategoriaPoluicao(p: int): (c: Categoria)
    ensures c == Otima <==> p <= 40
    ensures c == Moderada <==> 41 <= p <= 80
    ensures c == InsalubreSensiveis <==> 81 <= p <= 120
    ensures c == Insalubre <==> 121 <= p <= 200
    ensures c == MuitoInsalubre <==> 201 <= p <= 300
    ensures c == Perigosa <==> 300 < p
  {
    if p <= 40 then Otima
    else if 41 <= p <= 80 then Moderada
    else if 81 <= p <= 120 then InsalubreSensiveis
    else if 121 <= p <= 200 then Insalubre
    else if 201 <= p <= 300 then MuitoInsalubre
    else Perigosa
  }


  /** The exact boundary values of the bands. */
  lemma FronteirasDasFaixas()
    ensures Nome(CategoriaPoluicao(40)) == "Ótima" && Nome(CategoriaPoluicao(41)) == "Moderada"
    ensures Nome(CategoriaPoluicao(80)) == "Moderada" && Nome(CategoriaPoluicao(81)) == "Insalubre (sensíveis)"
    ensures Nome(CategoriaPoluicao(120)) == "Insalubre (sensíveis)" && Nome(CategoriaPoluicao(121)) == "Insalubre"
    ensures Nome(CategoriaPoluicao(200)) == "Insalubre" && Nome(CategoriaPoluicao(201)) == "Muito insalubre"
    ensures Nome(CategoriaPoluicao(300)) == "Muito insalubre" && Nome(CategoriaPoluicao(301)) == "Perigosa"
  {
  }

  /** A larger integer index never yields a less severe category. */
  lemma SeveridadeMonotona(p: int, q: int)
    requires p <= q
    ensures Severidade(CategoriaPoluicao(p)) <= Severidade(CategoriaPoluicao(q))
  {
  }

  /** Distinct categories have distinct names, so counting by name and by category agree. */
  lemma NomeInjetivo(c1: Categoria, c2: Categoria)
    ensures Nome(c1) == Nome(c2) <==> c1 == c2
  {
    if c1 != c2 {
      assert Severidade(c1) != Severidade(c2);
      match c1
      case Otima => assert Nome(c1)[0] == 'Ó';
      case Moderada => assert Nome(c1)[0] == 'M' && Nome(c1)[1] == 'o';
      case InsalubreSensiveis => assert |Nome(c1)| == 21;
      case Insalubre => assert |Nome(c1)| == 9;
      case MuitoInsalubre => assert Nome(c1)[1] == 'u';
      case Perigosa => assert Nome(c1)[0] == 'P';
    }
  }

  /** `categoria_poluicao` exactly as written, applied to a real index: between two bands
      (for instance 40.5) every guard fails and the result is the worst band. */
  function CategoriaPoluicaoReal(p: real): (c: Categoria)
    ensures c == Perigosa <==>
      (300.0 < p || 40.0 < p < 41.0 || 80.0 < p < 81.0 || 120.0 < p < 121.0 || 200.0 < p < 201.0)
  {
    if p <= 40.0 then Otima
    else if 41.0 <= p <= 80.0 then Moderada
    else if 81.0 <= p <= 120.0 then InsalubreSensiveis
    else if 121.0 <= p <= 200.0 then Insalubre
    else if 201.0 <= p <= 300.0 then MuitoInsalubre
    else Perigosa
  }

  /** The gap: an index of 40.5 is classified as more dangerous than 41 or 300. */
  lemma LacunaEntreFaixas()
    ensures CategoriaPoluicaoReal(40.5) == Perigosa
    ensures CategoriaPoluicaoReal(41.0) == Moderada
    ensures CategoriaPoluicaoReal(300.0) == MuitoInsalubre
    ensures Severidade(CategoriaPoluicaoReal(41.0)) < Severidade(CategoriaPoluicaoReal(40.5))
  {
  }

  /** The evidently intended classification: contiguous bands closed at their upper bound. */
  function CategoriaPorFaixas(p: real): Categoria {
    if p <= 40.0 then Otima
    else if p <= 80.0 then Moderada
    else if p <= 120.0 then InsalubreSensiveis
    else if p <= 200.0 then Insalubre
    else if p <= 300.0 then MuitoInsalubre
    else Perigosa
  }

  /** `categoria_poluicao` as the source returns it: the category's name paired with its colour.
      The colour alone already tells the best and the worst band apart from the others. */
  function CategoriaComCor(p: int): (r: (string, string))
    ensures r.0 == Nome(CategoriaPoluicao(p)) && r.1 == Cor(CategoriaPoluicao(p))
    ensures r.1 == "#00FF00" <==> p <= 40
    ensures r.1 == "#8B0000" <==> 300 < p
  {
    var c := CategoriaPoluicao(p);
    (Nome(c), Cor(c))
  }

  /** The category of a sample, by the source's guards; on the integer index a sample holds it is
      also the evidently intended contiguous band. */
  function CategoriaDoPonto(p: PontoDeVoo): (c: Categoria)
    ensures c == CategoriaPorFaixas(p.indicePoluicaoAr as real)
  {
    FaixasConcordamNosInteiros(p.indicePoluicaoAr);
    CategoriaPoluicao(p.indicePoluicaoAr)
  }

  /** With contiguous bands, severity never decreases as the real index grows. */
  lemma CategoriaPorFaixasMonotona(p: real, q: real)
    requires p <= q
    ensures Severidade(CategoriaPorFaixas(p)) <= Severidade(CategoriaPorFaixas(q))
  {
  }

  /** On integer indices, which is all the map produces, the code as written, the intended
      bands and the model's classification agree. */
  lemma FaixasConcordamNosInteiros(n: int)
    ensures CategoriaPoluicaoReal(n as real) == CategoriaPoluicao(n)
    ensures CategoriaPorFaixas(n as real) == CategoriaPoluicao(n)
  {
  }
}
