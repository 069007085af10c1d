/** The body of `buscarHemocentrosProximos`: the request, the walk over the
    response elements with the distance filter and the de-duplication through
    an insertion-ordered `Map`, and the final stable sort by type rank and
    rounded distance. */
module OsmBusca {
  import opened Wrappers
  import opened JsString
  import opened Hemocentro
  import opened Osm

  /** Largest distance, in km, of a returned point (compared unrounded). */
  const DISTANCIA_MAXIMA_KM: real := 15.0

  /** Name given to a point whose `name` tag is missing or blank. Note the
      capital C: it is not the type label "Ponto de coleta". */
  const NOME_PADRAO: string := "Ponto de Coleta"

  const FALHA_CONSULTA: string := "Falha ao consultar OpenStreetMap"

  /** The floating-point primitives, kept abstract: the haversine distance
      (`calcularDistanciaKm`), `Number(x.toFixed(1))`, and the conversion of a
      coordinate to text inside template strings. */
  datatype Numericos = Numericos(
    distanciaKm: (Coordenada, Coordenada) -> real,
    arredondar: real -> real,
    texto: real -> string)

  /** What the Overpass endpoint answers: whether the status is a success,
      and the decoded `elements` list when the body has one. */
  datatype Resposta = Resposta(ok: bool, elements: Option<seq<OverpassElement>>)

  // ---------------------------------------------------------------------
  // The JavaScript Map used for de-duplication
  // ---------------------------------------------------------------------

  /** A `Map<string, V>`: the keys in insertion order and their values. */
  datatype MapaOrdenado<V> = MapaOrdenado(chaves: seq<string>, valores: seq<V>) {

    /** One value per key, keys pairwise different. */
    ghost predicate Valido() {
      && |chaves| == |valores|
      && forall i, j :: 0 <= i < j < |chaves| ==> chaves[i] != chaves[j]
    }

    /** `map.has(k)`. */
    function Has(k: string): (b: bool)
      ensures b <==> exists i :: 0 <= i < |chaves| && chaves[i] == k
    {
      k in chaves
    }

    /** `map.set(k, v)`: a new key goes last; an existing key keeps its place
        and gets the new value. */
    function Set(k: string, v: V): (m: MapaOrdenado<V>)
      requires Valido()
      ensures m.Valido()
      ensures !Has(k) ==> m.chaves == chaves + [k] && m.valores == valores + [v]
      ensures Has(k) ==> (m.chaves == chaves && |m.valores| == |valores|
        && forall i :: 0 <= i < |valores| ==> m.valores[i] == if chaves[i] == k then v else valores[i])
    {
      if k !in chaves then
        MapaOrdenado(chaves + [k], valores + [v])
      else
        MapaOrdenado(chaves, valores[Posicao(chaves, k) := v])
    }

    /** After `map.set(k, v)`, `has` holds of `k` and of the keys it held of
        before, and of nothing else. */
    lemma SetHas(k: string, v: V, k': string)
      requires Valido()
      ensures Set(k, v).Has(k') <==> Has(k') || k' == k
    {
    }

    /** `[...map.values()]`: the values in insertion order of their keys. */
    function Values(): seq<V> {
      valores
    }
  }

  /** The position of key `k` in `ks`. */
  function Posicao(ks: seq<string>, k: string): (i: nat)
    requires k in ks
    ensures i < |ks| && ks[i] == k
    ensures forall j :: 0 <= j < i ==> ks[j] != k
  {
    if ks[0] == k then 0 else 1 + Posicao(ks[1..], k)
  }

  // ---------------------------------------------------------------------
  // One element of the response
  // ---------------------------------------------------------------------

  /** `elemento.tags?.name?.trim() || 'Ponto de Coleta'`. */
  function NomeDe(tags: Option<Tags>): (r: string)
    ensures r != "" && !IsWhitespace(r[0]) && !IsWhitespace(r[|r| - 1])
    ensures r != NOME_PADRAO ==> tags.Some? && "name" in tags.value && r == Trim(tags.value["name"])
    ensures tags.None? || "name" !in tags.value || Trim(tags.value["name"]) == "" ==> r == NOME_PADRAO
    ensures tags.Some? && "name" in tags.value && Trim(tags.value["name"]) != "" ==> r == Trim(tags.value["name"])
  {
    var aparado := if tags.Some? && "name" in tags.value then Some(Trim(tags.value["name"])) else None;
    if aparado.Some? && aparado.value != "" then aparado.value else NOME_PADRAO
  }

  /** The de-duplication key `${nome}-${latitude}-${longitude}`. */
  function ChaveUnica(nome: string, c: Coordenada, texto: real -> string): (r: string)
    ensures |r| == |nome| + |texto(c.latitude)| + |texto(c.longitude)| + 2
    ensures var n, a := |nome|, |texto(c.latitude)|;
      && r[..n] == nome && r[n] == '-'
      && r[n + 1..n + 1 + a] == texto(c.latitude) && r[n + 1 + a] == '-'
      && r[n + 2 + a..] == texto(c.longitude)
  {
    nome + "-" + texto(c.latitude) + "-" + texto(c.longitude)
  }

  /** The key of a stored item, recomputed from the item itself. */
  function ChaveDoItem(h: HemocentroProximo, texto: real -> string): string {
    ChaveUnica(h.nomeHemocentro, Coordenada(h.latitude, h.longitude), texto)
  }

  /** What one iteration of the loop would store, under which key. */
  datatype Entrada = Entrada(chave: string, item: HemocentroProximo)

  /** The item stored for element `e`, found at coordinate `c` and unrounded
      distance `d`: trimmed name or the default, type from that name and the
      tags, address from the tags, the id printed, the distance rounded. */
  function Normalizar(e: OverpassElement, c: Coordenada, d: real, num: Numericos): (h: HemocentroProximo)
    ensures h.latitude == c.latitude && h.longitude == c.longitude && h.distanciaKm == num.arredondar(d)
  {
    var nome := NomeDe(e.tags);
    HemocentroProximo(IntToString(e.id), nome, MapearTipo(nome, e.tags), MontarEndereco(e.tags),
                      c.latitude, c.longitude, num.arredondar(d))
  }

  /** The entry an element contributes, or nothing when it has no coordinate
      or lies farther than 15 km (unrounded) from `origem`. */
  function Candidato(e: OverpassElement, origem: Coordenada, num: Numericos): (r: Option<Entrada>)
    ensures r.None? <==> (ExtrairCoordenada(e).None?
      || num.distanciaKm(origem, ExtrairCoordenada(e).value) > DISTANCIA_MAXIMA_KM)
    ensures r.Some? ==> var c := ExtrairCoordenada(e).value;
      && r.value.chave == ChaveDoItem(r.value.item, num.texto)
      && r.value.item == Normalizar(e, c, num.distanciaKm(origem, c), num)
  {
    match ExtrairCoordenada(e)
    case None => None
    case Some(c) =>
      var d := num.distanciaKm(origem, c);
      if d > DISTANCIA_MAXIMA_KM then None
      else
        var h := Normalizar(e, c, d, num);
        Some(Entrada(ChaveUnica(h.nomeHemocentro, c, num.texto), h))
  }

  // ---------------------------------------------------------------------
  // The loop, as a function of the entries seen so far
  // ---------------------------------------------------------------------

  /** The entries of a list of elements, one per element, in order. */
  function Entradas(es: seq<OverpassElement>, origem: Coordenada, num: Numericos): (cs: seq<Option<Entrada>>)
    ensures |cs| == |es| && forall j :: 0 <= j < |es| ==> cs[j] == Candidato(es[j], origem, num)
  {
    seq(|es|, j requires 0 <= j < |es| => Candidato(es[j], origem, num))
  }

  /** The map after the loop has seen the entries `cs`: an entry is stored
      unless its key is already present. */
  function Deduplicar(cs: seq<Option<Entrada>>): (m: MapaOrdenado<HemocentroProximo>)
    ensures m.Valido()
  {
    if cs == [] then MapaOrdenado([], [])
    else
      var m0 := Deduplicar(cs[..|cs| - 1]);
      match cs[|cs| - 1]
      case None => m0
      case Some(en) => if m0.Has(en.chave) then m0 else m0.Set(en.chave, en.item)
  }

  /** The map `itensUnicos` once the loop has walked `es`. */
  function Agregar(es: seq<OverpassElement>, origem: Coordenada, num: Numericos): MapaOrdenado<HemocentroProximo> {
    Deduplicar(Entradas(es, origem, num))
  }

  predicate TemChave(o: Option<Entrada>, k: string) {
    o.Some? && o.value.chave == k
  }

  /** The index of the first entry with key `k`, or `|cs|`. */
  function PrimeiraOcorrencia(cs: seq<Option<Entrada>>, k: string): (j: nat)
    ensures j <= |cs|
    ensures j < |cs| ==> TemChave(cs[j], k)
    ensures forall i :: 0 <= i < j && i < |cs| ==> !TemChave(cs[i], k)
  {
    if cs == [] then 0
    else if TemChave(cs[0], k) then 0
    else 1 + PrimeiraOcorrencia(cs[1..], k)
  }

  /** Every stored entry is the first entry with its key. */
  ghost predicate GuardaPrimeiros(cs: seq<Option<Entrada>>, m: MapaOrdenado<HemocentroProximo>) {
    forall i :: 0 <= i < |m.chaves| && i < |m.valores| ==>
      var j := PrimeiraOcorrencia(cs, m.chaves[i]);
      j < |cs| && cs[j] == Some(Entrada(m.chaves[i], m.valores[i]))
  }

  /** The key of every entry is stored. */
  ghost predicate Completo(cs: seq<Option<Entrada>>, m: MapaOrdenado<HemocentroProximo>) {
    forall j :: 0 <= j < |cs| && cs[j].Some? ==> cs[j].value.chave in m.chaves
  }

  /** Keys are stored in the order of their first entries. */
  ghost predicate NaOrdemDeChegada(cs: seq<Option<Entrada>>, m: MapaOrdenado<HemocentroProximo>) {
    forall i, i' :: 0 <= i < i' < |m.chaves| ==>
      PrimeiraOcorrencia(cs, m.chaves[i]) < PrimeiraOcorrencia(cs, m.chaves[i'])
  }

  /** Extending the list does not move a first occurrence already found. */
  lemma PrimeiraOcorrenciaPrefixo(cs: seq<Option<Entrada>>, n: nat, k: string)
    requires n <= |cs|
    ensures var j := PrimeiraOcorrencia(cs[..n], k);
      (j < n ==> PrimeiraOcorrencia(cs, k) == j) && (j == n ==> PrimeiraOcorrencia(cs, k) >= n)
  {
    assert forall i :: 0 <= i < n ==> cs[..n][i] == cs[i];
  }

  /** What the loop keeps: every stored entry is the first entry with its
      key; the key of every entry is stored; entries are stored in the order
      of those first entries. */
  lemma {:induction false} DeduplicarGuardaPrimeiros(cs: seq<Option<Entrada>>)
    ensures var m := Deduplicar(cs);
      GuardaPrimeiros(cs, m) && Completo(cs, m) && NaOrdemDeChegada(cs, m)
  {
    if cs != [] {
      var p := cs[..|cs| - 1];
      DeduplicarGuardaPrimeiros(p);
      PassoPreservaGuarda(cs);
      PassoPreservaCompleto(cs);
      PassoPreservaOrdem(cs);
    }
  }

  /** One step of the loop: the map is unchanged, or the new key goes last. */
  lemma Passo(cs: seq<Option<Entrada>>)
    requires cs != []
    ensures var n := |cs| - 1; var m0, m := Deduplicar(cs[..n]), Deduplicar(cs);
      || (m == m0 && (cs[n].None? || cs[n].value.chave in m0.chaves))
      || (&& cs[n].Some? && cs[n].value.chave !in m0.chaves
          && m.chaves == m0.chaves + [cs[n].value.chave] && m.valores == m0.valores + [cs[n].value.item])
  {
  }

  /** Keys already stored keep their first occurrence; a new key's first
      occurrence is the last entry. */
  lemma PrimeirasNoPasso(cs: seq<Option<Entrada>>)
    requires cs != []
    requires var p := cs[..|cs| - 1]; GuardaPrimeiros(p, Deduplicar(p)) && Completo(p, Deduplicar(p))
    ensures var n := |cs| - 1; var p := cs[..n];
      forall k :: k in Deduplicar(p).chaves ==> PrimeiraOcorrencia(cs, k) == PrimeiraOcorrencia(p, k) < n
    ensures var n := |cs| - 1;
      cs[n].Some? && cs[n].value.chave !in Deduplicar(cs[..n]).chaves ==> PrimeiraOcorrencia(cs, cs[n].value.chave) == n
  {
    var n := |cs| - 1;
    var p := cs[..n];
    var m0 := Deduplicar(p);
    forall k | k in m0.chaves
      ensures PrimeiraOcorrencia(cs, k) == PrimeiraOcorrencia(p, k) < n
    {
      var i :| 0 <= i < |m0.chaves| && m0.chaves[i] == k;
      PrimeiraOcorrenciaPrefixo(cs, n, k);
    }
    if cs[n].Some? && cs[n].value.chave !in m0.chaves {
      var k := cs[n].value.chave;
      forall j | 0 <= j < n ensures !TemChave(cs[j], k) {
        assert cs[j] == p[j];
        if p[j].Some? {
          assert p[j].value.chave in m0.chaves;
        }
      }
    }
  }

  lemma PassoPreservaGuarda(cs: seq<Option<Entrada>>)
    requires cs != []
    requires var p := cs[..|cs| - 1]; GuardaPrimeiros(p, Deduplicar(p)) && Completo(p, Deduplicar(p))
    ensures GuardaPrimeiros(cs, Deduplicar(cs))
  {
    var n := |cs| - 1;
    var p := cs[..n];
    var m0, m := Deduplicar(p), Deduplicar(cs);
    Passo(cs);
    PrimeirasNoPasso(cs);
    forall i | 0 <= i < |m.chaves| && i < |m.valores|
      ensures PrimeiraOcorrencia(cs, m.chaves[i]) < |cs|
      ensures cs[PrimeiraOcorrencia(cs, m.chaves[i])] == Some(Entrada(m.chaves[i], m.valores[i]))
    {
      if i < |m0.chaves| {
        var k := m0.chaves[i];
        assert m.chaves[i] == k && m.valores[i] == m0.valores[i];
        var j := PrimeiraOcorrencia(p, k);
        assert p[j] == Some(Entrada(k, m0.valores[i]));
        assert cs[j] == p[j];
      }
    }
  }

  lemma PassoPreservaCompleto(cs: seq<Option<Entrada>>)
    requires cs != []
    requires var p := cs[..|cs| - 1]; Completo(p, Deduplicar(p))
    ensures Completo(cs, Deduplicar(cs))
  {
    var n := |cs| - 1;
    var p := cs[..n];
    Passo(cs);
    forall j | 0 <= j < |cs| && cs[j].Some? ensures cs[j].value.chave in Deduplicar(cs).chaves {
      if j < n {
        assert cs[j] == p[j];
      }
    }
  }

  lemma PassoPreservaOrdem(cs: seq<Option<Entrada>>)
    requires cs != []
    requires var p := cs[..|cs| - 1];
      GuardaPrimeiros(p, Deduplicar(p)) && Completo(p, Deduplicar(p)) && NaOrdemDeChegada(p, Deduplicar(p))
    ensures NaOrdemDeChegada(cs, Deduplicar(cs))
  {
    var n := |cs| - 1;
    var p := cs[..n];
    var m0, m := Deduplicar(p), Deduplicar(cs);
    Passo(cs);
    PrimeirasNoPasso(cs);
    forall i, i' | 0 <= i < i' < |m.chaves|
      ensures PrimeiraOcorrencia(cs, m.chaves[i]) < PrimeiraOcorrencia(cs, m.chaves[i'])
    {
      assert m0.chaves[i] in m0.chaves;
      if i' < |m0.chaves| {
        assert m0.chaves[i'] in m0.chaves;
      }
    }
  }

  /** The same in terms of the response elements: each stored item comes from
      the first element with its key, which had a coordinate within 15 km;
      every element with a coordinate within 15 km has its key stored; items
      are stored in the order of those first elements; no two stored items
      share a key, and each key is the item's own. */
  lemma AgregarGuardaPrimeiros(es: seq<OverpassElement>, origem: Coordenada, num: Numericos)
    ensures var m, cs := Agregar(es, origem, num), Entradas(es, origem, num);
      && (forall i :: 0 <= i < |m.valores| ==>
            var j := PrimeiraOcorrencia(cs, m.chaves[i]);
            && j < |es|
            && Candidato(es[j], origem, num) == Some(Entrada(m.chaves[i], m.valores[i]))
            && ExtrairCoordenada(es[j]).Some?
            && num.distanciaKm(origem, ExtrairCoordenada(es[j]).value) <= DISTANCIA_MAXIMA_KM)
      && (forall j :: 0 <= j < |es| && Candidato(es[j], origem, num).Some? ==>
            Candidato(es[j], origem, num).value.chave in m.chaves)
      && (forall i, i' :: 0 <= i < i' < |m.chaves| ==>
            PrimeiraOcorrencia(cs, m.chaves[i]) < PrimeiraOcorrencia(cs, m.chaves[i']))
      && (forall i :: 0 <= i < |m.valores| ==> m.chaves[i] == ChaveDoItem(m.valores[i], num.texto))
      && ChavesDistintas(m.Values(), num.texto)
  {
    DeduplicarGuardaPrimeiros(Entradas(es, origem, num));
  }

  ghost predicate ChavesDistintas(s: seq<HemocentroProximo>, texto: real -> string) {
    forall i, j :: 0 <= i < j < |s| ==> ChaveDoItem(s[i], texto) != ChaveDoItem(s[j], texto)
  }

  // ---------------------------------------------------------------------
  // The final sort
  // ---------------------------------------------------------------------

  /** The sort comparator: a negative value puts `a` first. */
  function Comparar(a: HemocentroProximo, b: HemocentroProximo): (r: real)
    ensures r < 0.0 <==> (PrioridadeTipo(a.tipo) < PrioridadeTipo(b.tipo)
      || (PrioridadeTipo(a.tipo) == PrioridadeTipo(b.tipo) && a.distanciaKm < b.distanciaKm))
  {
    var diferencaPrioridade := PrioridadeTipo(a.tipo) - PrioridadeTipo(b.tipo);
    if diferencaPrioridade != 0 then diferencaPrioridade as real else a.distanciaKm - b.distanciaKm
  }

  /** The pair the comparator orders by. */
  function Posto(h: HemocentroProximo): (int, real) {
    (PrioridadeTipo(h.tipo), h.distanciaKm)
  }

  lemma CompararOrdemTotal(a: HemocentroProximo, b: HemocentroProximo, c: HemocentroProximo)
    ensures Comparar(b, a) == -Comparar(a, b)
    ensures Comparar(a, b) == 0.0 <==> Posto(a) == Posto(b)
    ensures Comparar(a, b) <= 0.0 && Comparar(b, c) <= 0.0 ==> Comparar(a, c) <= 0.0
  {
  }

  ghost predicate Ordenado(s: seq<HemocentroProximo>) {
    forall i, j :: 0 <= i < j < |s| ==> Comparar(s[i], s[j]) <= 0.0
  }

  /** The items of `s` with rank pair `p`, in their order in `s`. */
  function Empatados(s: seq<HemocentroProximo>, p: (int, real)): seq<HemocentroProximo> {
    if s == [] then []
    else if Posto(s[0]) == p then [s[0]] + Empatados(s[1..], p)
    else Empatados(s[1..], p)
  }

  /** Inserts `x` before the first element that does not sort strictly before it. */
  function Inserir(x: HemocentroProximo, l: seq<HemocentroProximo>): (r: seq<HemocentroProximo>)
    ensures multiset(r) == multiset(l) + multiset{x}
  {
    if l == [] || Comparar(x, l[0]) <= 0.0 then [x] + l
    else
      assert l == [l[0]] + l[1..];
      [l[0]] + Inserir(x, l[1..])
  }

  /** `Array.prototype.sort` with the comparator above: a stable sort,
      written as insertion sort. */
  function Ordenar(s: seq<HemocentroProximo>): (r: seq<HemocentroProximo>)
    ensures multiset(r) == multiset(s)
  {
    if s == [] then []
    else
      assert s == [s[0]] + s[1..];
      Inserir(s[0], Ordenar(s[1..]))
  }

  lemma {:induction false} InserirOrdenado(x: HemocentroProximo, l: seq<HemocentroProximo>)
    requires Ordenado(l)
    ensures Ordenado(Inserir(x, l))
  {
    var r := Inserir(x, l);
    if l == [] || Comparar(x, l[0]) <= 0.0 {
      forall j | 0 < j < |r| ensures Comparar(x, r[j]) <= 0.0 {
        CompararOrdemTotal(x, l[0], r[j]);
      }
    } else {
      InserirOrdenado(x, l[1..]);
      CabecaAntesDoInserido(x, l);
    }
  }

  /** When `x` goes after the head, the head still comes first. */
  lemma CabecaAntesDoInserido(x: HemocentroProximo, l: seq<HemocentroProximo>)
    requires Ordenado(l) && l != [] && Comparar(x, l[0]) > 0.0
    ensures forall y :: y in Inserir(x, l[1..]) ==> Comparar(l[0], y) <= 0.0
  {
    forall y | y in Inserir(x, l[1..]) ensures Comparar(l[0], y) <= 0.0 {
      assert y in multiset(Inserir(x, l[1..]));
      if y == x {
        CompararOrdemTotal(x, l[0], x);
      } else {
        assert y in multiset(l[1..]);
        var q :| 0 <= q < |l[1..]| && l[1..][q] == y;
        assert l[q + 1] == y;
      }
    }
  }

  /** The result of the sort is in non-decreasing comparator order. */
  lemma {:induction false} OrdenarOrdena(s: seq<HemocentroProximo>)
    ensures Ordenado(Ordenar(s))
  {
    if s != [] {
      OrdenarOrdena(s[1..]);
      InserirOrdenado(s[0], Ordenar(s[1..]));
    }
  }

  lemma {:induction false} InserirEstavel(x: HemocentroProximo, l: seq<HemocentroProximo>, p: (int, real))
    ensures Empatados(Inserir(x, l), p) == if Posto(x) == p then [x] + Empatados(l, p) else Empatados(l, p)
  {
    if l == [] || Comparar(x, l[0]) <= 0.0 {
      assert ([x] + l)[1..] == l;
    } else {
      CompararOrdemTotal(x, l[0], x);
      InserirEstavel(x, l[1..], p);
      assert ([l[0]] + Inserir(x, l[1..]))[1..] == Inserir(x, l[1..]);
    }
  }

  /** Stability: for every rank pair, the items tied on it keep their order. */
  lemma {:induction false} OrdenarEstavel(s: seq<HemocentroProximo>, p: (int, real))
    ensures Empatados(Ordenar(s), p) == Empatados(s, p)
  {
    if s != [] {
      OrdenarEstavel(s[1..], p);
      InserirEstavel(s[0], Ordenar(s[1..]), p);
    }
  }

  lemma {:induction false} EmpatadosContidos(s: seq<HemocentroProximo>, p: (int, real))
    ensures forall x :: x in Empatados(s, p) ==> x in s && Posto(x) == p
  {
    if s != [] {
      EmpatadosContidos(s[1..], p);
    }
  }

  lemma VazioPorEmpates(s: seq<HemocentroProximo>)
    ensures (forall p :: Empatados(s, p) == []) ==> s == []
  {
    if s != [] {
      assert Empatados(s, Posto(s[0])) != [];
    }
  }

  lemma CabecaMinima(s: seq<HemocentroProximo>, x: HemocentroProximo)
    requires Ordenado(s) && x in s
    ensures Comparar(s[0], x) <= 0.0
  {
    var q :| 0 <= q < |s| && s[q] == x;
    if q > 0 {
      assert Comparar(s[0], s[q]) <= 0.0;
    }
  }

  lemma MesmaCabeca(a: seq<HemocentroProximo>, b: seq<HemocentroProximo>)
    requires a != [] && b != [] && Ordenado(a) && Ordenado(b)
    requires forall p :: Empatados(a, p) == Empatados(b, p)
    ensures a[0] == b[0]
  {
    var pa, pb := Posto(a[0]), Posto(b[0]);
    EmpatadosContidos(a, pb);
    EmpatadosContidos(b, pa);
    assert Empatados(b, pa) == Empatados(a, pa) && a[0] in Empatados(a, pa);
    assert Empatados(a, pb) == Empatados(b, pb) && b[0] in Empatados(b, pb);
    CabecaMinima(b, a[0]);
    CabecaMinima(a, b[0]);
    CompararOrdemTotal(a[0], b[0], a[0]);
    assert Empatados(a, pa)[0] == a[0] && Empatados(b, pb)[0] == b[0];
  }

  /** A sorted list is determined by its tie classes: two lists in comparator
      order with the same items, in the same order, for every rank pair, are
      equal. */
  lemma {:induction false} OrdenadosComMesmosEmpates(a: seq<HemocentroProximo>, b: seq<HemocentroProximo>)
    requires Ordenado(a) && Ordenado(b)
    requires forall p :: Empatados(a, p) == Empatados(b, p)
    ensures a == b
  {
    if a == [] || b == [] {
      VazioPorEmpates(a);
      VazioPorEmpates(b);
    } else {
      MesmaCabeca(a, b);
      forall p ensures Empatados(a[1..], p) == Empatados(b[1..], p) {
        assert Empatados(a, p) == Empatados(b, p);
        if Posto(a[0]) == p {
          assert Empatados(a[1..], p) == Empatados(a, p)[1..];
          assert Empatados(b[1..], p) == Empatados(b, p)[1..];
        }
      }
      OrdenadosComMesmosEmpates(a[1..], b[1..]);
      assert a == [a[0]] + a[1..] && b == [b[0]] + b[1..];
    }
  }

  /** Any stable sort by this comparator gives the same list as `Ordenar`: a
      list in comparator order whose tie classes are those of `s` is
      `Ordenar(s)`. */
  lemma OrdenacaoEstavelUnica(s: seq<HemocentroProximo>, r: seq<HemocentroProximo>)
    requires Ordenado(r)
    requires forall p :: Empatados(r, p) == Empatados(s, p)
    ensures r == Ordenar(s)
  {
    OrdenarOrdena(s);
    forall p ensures Empatados(r, p) == Empatados(Ordenar(s), p) {
      OrdenarEstavel(s, p);
    }
    OrdenadosComMesmosEmpates(r, Ordenar(s));
  }

  lemma {:induction false} InserirChavesDistintas(x: HemocentroProximo, l: seq<HemocentroProximo>, texto: real -> string)
    requires ChavesDistintas(l, texto)
    requires forall y :: y in l ==> ChaveDoItem(y, texto) != ChaveDoItem(x, texto)
    ensures ChavesDistintas(Inserir(x, l), texto)
  {
    if l == [] || Comparar(x, l[0]) <= 0.0 {
    } else {
      InserirChavesDistintas(x, l[1..], texto);
      var t := Inserir(x, l[1..]);
      forall j | 0 <= j < |t| ensures ChaveDoItem(l[0], texto) != ChaveDoItem(t[j], texto) {
        InseridoVemDe(x, l, t[j]);
      }
    }
  }

  /** An item of `Inserir(x, l[1..])` is `x` or an item of `l` after its head. */
  lemma InseridoVemDe(x: HemocentroProximo, l: seq<HemocentroProximo>, y: HemocentroProximo)
    requires l != [] && y in Inserir(x, l[1..])
    ensures y == x || exists q :: 1 <= q < |l| && l[q] == y
  {
    assert y in multiset(Inserir(x, l[1..]));
    if y != x {
      assert y in multiset(l[1..]);
      var q :| 0 <= q < |l[1..]| && l[1..][q] == y;
      assert l[q + 1] == y;
    }
  }

  /** Sorting keeps the keys pairwise different. */
  lemma {:induction false} OrdenarChavesDistintas(s: seq<HemocentroProximo>, texto: real -> string)
    requires ChavesDistintas(s, texto)
    ensures ChavesDistintas(Ordenar(s), texto)
  {
    if s != [] {
      OrdenarChavesDistintas(s[1..], texto);
      forall y | y in Ordenar(s[1..]) ensures ChaveDoItem(y, texto) != ChaveDoItem(s[0], texto) {
        assert y in multiset(Ordenar(s[1..]));
        var q :| 0 <= q < |s[1..]| && s[1..][q] == y;
        assert s[q + 1] == y;
      }
      InserirChavesDistintas(s[0], Ordenar(s[1..]), texto);
    }
  }

  // ---------------------------------------------------------------------
  // Properties of the returned list
  // ---------------------------------------------------------------------

  /** The list `buscarHemocentrosProximos` returns for the elements `es`. */
  function Resultado(es: seq<OverpassElement>, origem: Coordenada, num: Numericos): (r: seq<HemocentroProximo>)
    ensures multiset(r) == multiset(Agregar(es, origem, num).Values())
  {
    Ordenar(Agregar(es, origem, num).Values())
  }

  /** Every returned item is the item of an element that has a coordinate
      within 15 km (unrounded) of the origin, and of the first element with
      its key. */
  lemma ResultadoVemDeElementos(es: seq<OverpassElement>, origem: Coordenada, num: Numericos)
    ensures forall x :: x in Resultado(es, origem, num) ==> exists j :: (0 <= j < |es|
      && Candidato(es[j], origem, num) == Some(Entrada(ChaveDoItem(x, num.texto), x))
      && ExtrairCoordenada(es[j]).Some?
      && num.distanciaKm(origem, ExtrairCoordenada(es[j]).value) <= DISTANCIA_MAXIMA_KM
      && forall i :: 0 <= i < j ==> !TemChave(Candidato(es[i], origem, num), ChaveDoItem(x, num.texto)))
  {
    var m := Agregar(es, origem, num);
    forall x | x in Resultado(es, origem, num)
      ensures exists j :: (0 <= j < |es|
        && Candidato(es[j], origem, num) == Some(Entrada(ChaveDoItem(x, num.texto), x))
        && ExtrairCoordenada(es[j]).Some?
        && num.distanciaKm(origem, ExtrairCoordenada(es[j]).value) <= DISTANCIA_MAXIMA_KM
        && forall i :: 0 <= i < j ==> !TemChave(Candidato(es[i], origem, num), ChaveDoItem(x, num.texto)))
    {
      assert x in multiset(Resultado(es, origem, num));
      var i :| 0 <= i < |m.valores| && m.valores[i] == x;
      ItemVemDeElemento(es, origem, num, i);
    }
  }

  lemma ItemVemDeElemento(es: seq<OverpassElement>, origem: Coordenada, num: Numericos, i: nat)
    requires i < |Agregar(es, origem, num).valores|
    ensures var x := Agregar(es, origem, num).valores[i];
      exists j :: (0 <= j < |es|
        && Candidato(es[j], origem, num) == Some(Entrada(ChaveDoItem(x, num.texto), x))
        && ExtrairCoordenada(es[j]).Some?
        && num.distanciaKm(origem, ExtrairCoordenada(es[j]).value) <= DISTANCIA_MAXIMA_KM
        && forall i' :: 0 <= i' < j ==> !TemChave(Candidato(es[i'], origem, num), ChaveDoItem(x, num.texto)))
  {
    var cs := Entradas(es, origem, num);
    var m := Deduplicar(cs);
    EntradaDoMapa(cs, i);
    var j := PrimeiraOcorrencia(cs, m.chaves[i]);
    CandidatoNoRaio(es[j], origem, num);
  }

  /** The `i`-th stored entry is the first entry with its key. */
  lemma EntradaDoMapa(cs: seq<Option<Entrada>>, i: nat)
    requires i < |Deduplicar(cs).valores|
    ensures var m := Deduplicar(cs); var j := PrimeiraOcorrencia(cs, m.chaves[i]);
      j < |cs| && cs[j] == Some(Entrada(m.chaves[i], m.valores[i]))
  {
    DeduplicarGuardaPrimeiros(cs);
  }

  /** A kept element has a coordinate within range, and its key is its
      item's own. */
  lemma CandidatoNoRaio(e: OverpassElement, origem: Coordenada, num: Numericos)
    requires Candidato(e, origem, num).Some?
    ensures ExtrairCoordenada(e).Some?
    ensures num.distanciaKm(origem, ExtrairCoordenada(e).value) <= DISTANCIA_MAXIMA_KM
    ensures Candidato(e, origem, num).value.chave == ChaveDoItem(Candidato(e, origem, num).value.item, num.texto)
  {
  }

  /** Every returned item is filled from one in-range element: its id
      printed, its trimmed name (or the default), the type from that name and
      its tags, the address from its tags, its coordinate as extracted, and its
      distance rounded. */
  lemma ItensDoResultado(es: seq<OverpassElement>, origem: Coordenada, num: Numericos)
    ensures forall x :: x in Resultado(es, origem, num) ==> exists j :: (0 <= j < |es|
      && ExtrairCoordenada(es[j]).Some?
      && var c := ExtrairCoordenada(es[j]).value;
      && x.id == IntToString(es[j].id)
      && x.nomeHemocentro == NomeDe(es[j].tags)
      && x.tipo == MapearTipo(x.nomeHemocentro, es[j].tags)
      && x.endereco == MontarEndereco(es[j].tags)
      && x.latitude == c.latitude && x.longitude == c.longitude
      && x.distanciaKm == num.arredondar(num.distanciaKm(origem, c)))
  {
    ResultadoVemDeElementos(es, origem, num);
  }

  /** Every element with a coordinate within 15 km is represented by a
      returned item with its key. */
  lemma ResultadoCompleto(es: seq<OverpassElement>, origem: Coordenada, num: Numericos)
    ensures forall j :: 0 <= j < |es| && Candidato(es[j], origem, num).Some? ==>
      exists x :: x in Resultado(es, origem, num) && ChaveDoItem(x, num.texto) == Candidato(es[j], origem, num).value.chave
  {
    var m := Agregar(es, origem, num);
    AgregarGuardaPrimeiros(es, origem, num);
    forall j | 0 <= j < |es| && Candidato(es[j], origem, num).Some?
      ensures exists x :: x in Resultado(es, origem, num) && ChaveDoItem(x, num.texto) == Candidato(es[j], origem, num).value.chave
    {
      var i :| 0 <= i < |m.chaves| && m.chaves[i] == Candidato(es[j], origem, num).value.chave;
      assert m.valores[i] in multiset(Resultado(es, origem, num));
    }
  }

  /** No two returned items share a key; the list is in comparator order; and
      items tied on (type rank, rounded distance) keep the order in which their
      keys were first seen. */
  lemma ResultadoOrdenadoSemRepeticao(es: seq<OverpassElement>, origem: Coordenada, num: Numericos)
    ensures ChavesDistintas(Resultado(es, origem, num), num.texto)
    ensures Ordenado(Resultado(es, origem, num))
    ensures forall p :: Empatados(Resultado(es, origem, num), p) == Empatados(Agregar(es, origem, num).Values(), p)
  {
    var m := Agregar(es, origem, num);
    AgregarGuardaPrimeiros(es, origem, num);
    OrdenarChavesDistintas(m.Values(), num.texto);
    OrdenarOrdena(m.Values());
    forall p {
      OrdenarEstavel(m.Values(), p);
    }
  }

  /** With a rounding that is monotone and keeps 15 as it is (as
      `toFixed(1)` does), every returned distance is at most 15 km. */
  lemma DistanciasNoRaio(es: seq<OverpassElement>, origem: Coordenada, num: Numericos)
    requires forall a: real, b: real :: a <= b ==> num.arredondar(a) <= num.arredondar(b)
    requires num.arredondar(DISTANCIA_MAXIMA_KM) == DISTANCIA_MAXIMA_KM
    ensures forall x :: x in Resultado(es, origem, num) ==> x.distanciaKm <= DISTANCIA_MAXIMA_KM
  {
    ResultadoVemDeElementos(es, origem, num);
    forall x | x in Resultado(es, origem, num) ensures x.distanciaKm <= DISTANCIA_MAXIMA_KM {
      var j :| 0 <= j < |es| && Candidato(es[j], origem, num) == Some(Entrada(ChaveDoItem(x, num.texto), x))
        && ExtrairCoordenada(es[j]).Some?
        && num.distanciaKm(origem, ExtrairCoordenada(es[j]).value) <= DISTANCIA_MAXIMA_KM;
    }
  }

  /** An element known only by its centroid, without tags and within range,
      gives one item: default name, default type, default address. */
  lemma SomenteCentroSemTags(id: int, centro: Centro, origem: Coordenada, num: Numericos)
    requires num.distanciaKm(origem, Coordenada(centro.lat, centro.lon)) <= DISTANCIA_MAXIMA_KM
    ensures var e := OverpassElement(id, None, None, Some(centro), None);
      var r := Resultado([e], origem, num);
      && |r| == 1
      && r[0].nomeHemocentro == NOME_PADRAO
      && r[0].tipo == PONTO_DE_COLETA
      && r[0].endereco == ENDERECO_NAO_INFORMADO
      && r[0].latitude == centro.lat && r[0].longitude == centro.lon
      && r[0].id == IntToString(id)
  {
    var e := OverpassElement(id, None, None, Some(centro), None);
    var c := Candidato(e, origem, num);
    assert c.Some?;
    var cs := Entradas([e], origem, num);
    assert cs == [c] && cs[..0] == [];
    assert Deduplicar(cs) == MapaOrdenado([c.value.chave], [c.value.item]);
    assert Ordenar([c.value.item]) == [c.value.item];
  }

  /** An element farther than 15 km contributes nothing. */
  lemma ForaDoRaioDescartado(es: seq<OverpassElement>, e: OverpassElement, origem: Coordenada, num: Numericos)
    requires ExtrairCoordenada(e).Some?
    requires num.distanciaKm(origem, ExtrairCoordenada(e).value) > DISTANCIA_MAXIMA_KM
    ensures Agregar(es + [e], origem, num) == Agregar(es, origem, num)
  {
    assert Entradas(es + [e], origem, num)[..|es|] == Entradas(es, origem, num);
  }

  /** The key is a plain string: with the usual printing of -1 and 1, the
      point named "A" at latitude -1 and the point named "A-" at latitude 1
      (same longitude) get the same key, so the second is dropped although
      its name and position differ. */
  lemma ChaveAmbigua(texto: real -> string, lon: real)
    requires texto(-1.0) == "-1" && texto(1.0) == "1"
    ensures ChaveUnica("A", Coordenada(-1.0, lon), texto) == ChaveUnica("A-", Coordenada(1.0, lon), texto)
  {
  }

  /** Two elements with the same name and the same coordinate within range
      collapse into one item: the first one's. */
  lemma DuplicadosColapsam(e1: OverpassElement, e2: OverpassElement, origem: Coordenada, num: Numericos)
    requires Candidato(e1, origem, num).Some? && Candidato(e2, origem, num).Some?
    requires NomeDe(e1.tags) == NomeDe(e2.tags)
    requires ExtrairCoordenada(e1) == ExtrairCoordenada(e2)
    ensures Agregar([e1, e2], origem, num).Values() == [Candidato(e1, origem, num).value.item]
  {
    ChaveDoCandidato(e1, origem, num);
    ChaveDoCandidato(e2, origem, num);
    EntradasDeDois(e1, e2, origem, num);
    MesmaChaveColapsa(Candidato(e1, origem, num).value, Candidato(e2, origem, num).value);
  }

  lemma EntradasDeDois(e1: OverpassElement, e2: OverpassElement, origem: Coordenada, num: Numericos)
    ensures Entradas([e1, e2], origem, num) == [Candidato(e1, origem, num), Candidato(e2, origem, num)]
  {
  }

  /** The key of an element's entry is built from its resolved name and its
      coordinate. */
  lemma ChaveDoCandidato(e: OverpassElement, origem: Coordenada, num: Numericos)
    requires Candidato(e, origem, num).Some?
    ensures Candidato(e, origem, num).value.chave == ChaveUnica(NomeDe(e.tags), ExtrairCoordenada(e).value, num.texto)
  {
  }

  lemma MesmaChaveColapsa(c1: Entrada, c2: Entrada)
    requires c1.chave == c2.chave
    ensures Deduplicar([Some(c1), Some(c2)]).Values() == [c1.item]
  {
    var cs := [Some(c1), Some(c2)];
    assert cs[..1] == [Some(c1)] && cs[..1][..0] == [];
    assert Deduplicar(cs[..1]) == MapaOrdenado([c1.chave], [c1.item]);
  }

  /** One more element: the map stays as it is when the element contributes
      nothing or its key is known, and otherwise gets its entry. */
  lemma AgregarPasso(es: seq<OverpassElement>, origem: Coordenada, num: Numericos, k: nat)
    requires k < |es|
    ensures var m0 := Agregar(es[..k], origem, num);
      Agregar(es[..k + 1], origem, num) == match Candidato(es[k], origem, num)
        case None => m0
        case Some(en) => if m0.Has(en.chave) then m0 else m0.Set(en.chave, en.item)
  {
    var cs := Entradas(es[..k + 1], origem, num);
    assert cs[..k] == Entradas(es[..k], origem, num);
    assert cs[k] == Candidato(es[k], origem, num);
  }

  // ---------------------------------------------------------------------
  // The search
  // ---------------------------------------------------------------------

  /** `buscarHemocentrosProximos`: sends the query, fails on an error status,
      otherwise walks the elements (none when the list is absent) and sorts
      what the map keeps. */
  method BuscarHemocentrosProximos(coordenadaUsuario: Coordenada, overpass: string -> Resposta, num: Numericos)
    returns (r: Result<seq<HemocentroProximo>, string>)
    ensures var resposta := overpass(MontarQueryOverpass(coordenadaUsuario, num.texto));
      && (r.Failure? <==> !resposta.ok)
      && (r.Failure? ==> r.error == FALHA_CONSULTA)
      && (r.Success? ==> r.value == Resultado(resposta.elements.GetOr([]), coordenadaUsuario, num))
  {
    var query := MontarQueryOverpass(coordenadaUsuario, num.texto);
    var resposta := overpass(query);
    if !resposta.ok {
      return Failure(FALHA_CONSULTA);
    }
    var elementos := resposta.elements.GetOr([]);
    var itensUnicos: MapaOrdenado<HemocentroProximo> := MapaOrdenado([], []);
    for k := 0 to |elementos|
      invariant itensUnicos == Agregar(elementos[..k], coordenadaUsuario, num)
    {
      AgregarPasso(elementos, coordenadaUsuario, num, k);
      var elemento := elementos[k];
      var coordenada := ExtrairCoordenada(elemento);
      if coordenada.None? {
        continue;
      }
      var distanciaKm := num.distanciaKm(coordenadaUsuario, coordenada.value);
      if distanciaKm > DISTANCIA_MAXIMA_KM {
        continue;
      }
      var nome := NomeDe(elemento.tags);
      var endereco := MontarEndereco(elemento.tags);
      var tipo := MapearTipo(nome, elemento.tags);
      var chaveUnica := ChaveUnica(nome, coordenada.value, num.texto);
      if itensUnicos.Has(chaveUnica) {
        continue;
      }
      itensUnicos := itensUnicos.Set(chaveUnica, HemocentroProximo(
        IntToString(elemento.id), nome, tipo, endereco,
        coordenada.value.latitude, coordenada.value.longitude, num.arredondar(distanciaKm)));
    }
    assert elementos[..|elementos|] == elementos;
    return Success(Ordenar(itensUnicos.Values()));
  }
}
