/** The pure helpers of the OpenStreetMap/Overpass search service: address
    composition, coordinate extraction, facility classification, type ranking
    and the Overpass query template. */
module Osm {
  import opened Wrappers
  import opened JsString
  import opened Hemocentro

  /** An element's free-text tags, `Record<string, string>`. */
  type Tags = map<string, string>

  /** The centroid the service reports for ways and relations. */
  datatype Centro = Centro(lat: real, lon: real)

  /** One element of the Overpass response; every field but `id` may be absent. */
  datatype OverpassElement = OverpassElement(
    id: int,
    lat: Option<real>,
    lon: Option<real>,
    center: Option<Centro>,
    tags: Option<Tags>)

  /** Radius of the Overpass query, in metres. */
  const RAIO_MAXIMO_METROS: int := 15000

  const ENDERECO_NAO_INFORMADO: string := "Endereço não informado"

  // ---------------------------------------------------------------------
  // Address composition (montarEndereco)
  // ---------------------------------------------------------------------

  /** `tags[k0] ?? tags[k1] ?? … ?? ''`: the value under the first key of
      `chaves` that is present. A present but empty value is taken as it is
      and hides the later keys. */
  function PrimeiroPresente(tags: Tags, chaves: seq<string>): (r: string)
    ensures forall i :: (0 <= i < |chaves| && chaves[i] in tags
      && forall j :: 0 <= j < i ==> chaves[j] !in tags) ==> r == tags[chaves[i]]
    ensures (forall i :: 0 <= i < |chaves| ==> chaves[i] !in tags) ==> r == ""
  {
    if chaves == [] then ""
    else if chaves[0] in tags then tags[chaves[0]]
    else PrimeiroPresente(tags, chaves[1..])
  }

  /** `tags['addr:street'] ?? tags.street ?? ''`. */
  function Rua(t: Tags): (r: string)
    ensures "addr:street" in t ==> r == t["addr:street"]
    ensures "addr:street" !in t && "street" in t ==> r == t["street"]
    ensures "addr:street" !in t && "street" !in t ==> r == ""
  {
    var ks := ["addr:street", "street"];
    assert ks[0] == "addr:street" && ks[1] == "street";
    PrimeiroPresente(t, ks)
  }

  /** `tags['addr:housenumber'] ?? ''`. */
  function Numero(t: Tags): (r: string)
    ensures "addr:housenumber" in t ==> r == t["addr:housenumber"]
    ensures "addr:housenumber" !in t ==> r == ""
  {
    PrimeiroPresente(t, ["addr:housenumber"])
  }

  /** `tags['addr:suburb'] ?? tags['addr:neighbourhood'] ?? ''`. */
  function Bairro(t: Tags): (r: string)
    ensures "addr:suburb" in t ==> r == t["addr:suburb"]
    ensures "addr:suburb" !in t && "addr:neighbourhood" in t ==> r == t["addr:neighbourhood"]
    ensures "addr:suburb" !in t && "addr:neighbourhood" !in t ==> r == ""
  {
    var ks := ["addr:suburb", "addr:neighbourhood"];
    assert ks[0] == "addr:suburb" && ks[1] == "addr:neighbourhood";
    PrimeiroPresente(t, ks)
  }

  /** `tags['addr:city'] ?? tags['addr:town'] ?? tags['addr:village'] ?? ''`. */
  function Cidade(t: Tags): (r: string)
    ensures "addr:city" in t ==> r == t["addr:city"]
    ensures "addr:city" !in t && "addr:town" in t ==> r == t["addr:town"]
    ensures "addr:city" !in t && "addr:town" !in t && "addr:village" in t ==> r == t["addr:village"]
    ensures "addr:city" !in t && "addr:town" !in t && "addr:village" !in t ==> r == ""
  {
    var ks := ["addr:city", "addr:town", "addr:village"];
    assert ks[0] == "addr:city" && ks[1] == "addr:town" && ks[2] == "addr:village";
    PrimeiroPresente(t, ks)
  }

  /** `tags['addr:state'] ?? ''`. */
  function Estado(t: Tags): (r: string)
    ensures "addr:state" in t ==> r == t["addr:state"]
    ensures "addr:state" !in t ==> r == ""
  {
    PrimeiroPresente(t, ["addr:state"])
  }

  /** `montarEndereco`: street and house number joined by ", ", then suburb,
      city and state joined by " - ", the two lines joined by ", ", dropping
      empty pieces; the fixed text when there are no tags or nothing is left. */
  function MontarEndereco(tags: Option<Tags>): (r: string)
    ensures r != ""
    ensures tags.None? ==> r == ENDERECO_NAO_INFORMADO
  {
    match tags
    case None => ENDERECO_NAO_INFORMADO
    case Some(t) =>
      var linha1 := Join(NonEmpty([Rua(t), Numero(t)]), ", ");
      var linha2 := Join(NonEmpty([Bairro(t), Cidade(t), Estado(t)]), " - ");
      var endereco := Join(NonEmpty([linha1, linha2]), ", ");
      if endereco != "" then endereco else ENDERECO_NAO_INFORMADO
  }

  /** An address fragment together with the line (1 or 2) it belongs to. */
  datatype Fragmento = Fragmento(texto: string, linha: nat)

  function Fragmentos(t: Tags): seq<Fragmento> {
    [Fragmento(Rua(t), 1), Fragmento(Numero(t), 1),
     Fragmento(Bairro(t), 2), Fragmento(Cidade(t), 2), Fragmento(Estado(t), 2)]
  }

  /** The fragments with non-empty text, in order. */
  function Presentes(fs: seq<Fragmento>): (r: seq<Fragmento>)
    ensures forall i :: 0 <= i < |r| ==> r[i].texto != "" && r[i] in fs
    ensures |fs| == 1 ==> r == if fs[0].texto == "" then [] else fs
  {
    if fs == [] then []
    else if fs[0].texto == "" then Presentes(fs[1..])
    else [fs[0]] + Presentes(fs[1..])
  }

  /** The separator between two consecutive non-empty fragments: " - " inside
      the second line, ", " everywhere else. */
  function Separador(a: Fragmento, b: Fragmento): string {
    if a.linha == 2 && b.linha == 2 then " - " else ", "
  }

  /** Flat reference reading of the address: the fragments in order, each pair
      of neighbours separated by `Separador`. */
  function Intercalar(fs: seq<Fragmento>): string {
    if fs == [] then ""
    else if |fs| == 1 then fs[0].texto
    else fs[0].texto + Separador(fs[0], fs[1]) + Intercalar(fs[1..])
  }

  function Textos(fs: seq<Fragmento>): (r: seq<string>)
    ensures |r| == |fs| && forall i :: 0 <= i < |fs| ==> r[i] == fs[i].texto
  {
    seq(|fs|, i requires 0 <= i < |fs| => fs[i].texto)
  }

  lemma {:induction false} PresentesConcat(a: seq<Fragmento>, b: seq<Fragmento>)
    ensures Presentes(a + b) == Presentes(a) + Presentes(b)
  {
    if a == [] {
      assert a + b == b;
    } else {
      assert (a + b)[0] == a[0] && (a + b)[1..] == a[1..] + b;
      PresentesConcat(a[1..], b);
    }
  }

  lemma {:induction false} PresentesTextos(fs: seq<Fragmento>)
    ensures Textos(Presentes(fs)) == NonEmpty(Textos(fs))
  {
    if fs != [] {
      assert Textos(fs)[1..] == Textos(fs[1..]);
      PresentesTextos(fs[1..]);
      if fs[0].texto != "" {
        assert Textos([fs[0]] + Presentes(fs[1..])) == [fs[0].texto] + Textos(Presentes(fs[1..]));
      }
    }
  }

  /** Inside one line the flat reading is the line's own join. */
  lemma {:induction false} IntercalarLinha(fs: seq<Fragmento>, n: nat)
    requires forall i :: 0 <= i < |fs| ==> fs[i].linha == n
    ensures Intercalar(fs) == Join(Textos(fs), if n == 2 then " - " else ", ")
  {
    if |fs| >= 2 {
      assert Textos(fs)[1..] == Textos(fs[1..]);
      IntercalarLinha(fs[1..], n);
    }
  }

  /** Between the lines the flat reading puts ", ". */
  lemma {:induction false} IntercalarLinhas(a: seq<Fragmento>, b: seq<Fragmento>)
    requires a != [] && b != []
    requires forall i :: 0 <= i < |a| ==> a[i].linha == 1
    ensures Intercalar(a + b) == Intercalar(a) + ", " + Intercalar(b)
  {
    if |a| == 1 {
      assert (a + b)[1..] == b;
    } else {
      assert (a + b)[1..] == a[1..] + b;
      IntercalarLinhas(a[1..], b);
    }
  }

  lemma {:induction false} IntercalarVazio(fs: seq<Fragmento>)
    requires forall i :: 0 <= i < |fs| ==> fs[i].texto != ""
    ensures Intercalar(fs) == "" <==> fs == []
  {
    if fs != [] {
      assert |Intercalar(fs)| >= |fs[0].texto|;
    }
  }

  /** One line of lines 51-52: joining the non-empty texts of fragments of
      one line is the flat reading of its non-empty fragments. */
  lemma LinhaIntercalada(fs: seq<Fragmento>, n: nat)
    requires forall i :: 0 <= i < |fs| ==> fs[i].linha == n
    ensures Join(NonEmpty(Textos(fs)), if n == 2 then " - " else ", ") == Intercalar(Presentes(fs))
  {
    var p := Presentes(fs);
    PresentesTextos(fs);
    assert forall i :: 0 <= i < |p| ==> p[i] in fs;
    IntercalarLinha(p, n);
  }

  /** Line 53: joining the two non-empty lines with ", " is the flat reading
      of all non-empty fragments. */
  lemma LinhasIntercaladas(p1: seq<Fragmento>, p2: seq<Fragmento>)
    requires forall i :: 0 <= i < |p1| ==> p1[i].linha == 1 && p1[i].texto != ""
    requires forall i :: 0 <= i < |p2| ==> p2[i].texto != ""
    ensures Join(NonEmpty([Intercalar(p1), Intercalar(p2)]), ", ") == Intercalar(p1 + p2)
    ensures Intercalar(p1 + p2) == "" <==> p1 + p2 == []
  {
    IntercalarVazio(p1);
    IntercalarVazio(p2);
    IntercalarVazio(p1 + p2);
    if p1 != [] && p2 != [] {
      IntercalarLinhas(p1, p2);
    } else if p1 == [] {
      assert p1 + p2 == p2;
    } else {
      assert p1 + p2 == p1;
    }
  }

  /** The two-level join of lines 51-53 over five plain fragments equals the
      flat reference reading of the non-empty ones. */
  lemma JuncaoIntercalada(ru: string, nu: string, ba: string, ci: string, es: string)
    ensures var fs := Presentes([Fragmento(ru, 1), Fragmento(nu, 1), Fragmento(ba, 2), Fragmento(ci, 2), Fragmento(es, 2)]);
      var linha1 := Join(NonEmpty([ru, nu]), ", ");
      var linha2 := Join(NonEmpty([ba, ci, es]), " - ");
      Join(NonEmpty([linha1, linha2]), ", ") == Intercalar(fs) && (Intercalar(fs) == "" <==> fs == [])
  {
    var l1 := [Fragmento(ru, 1), Fragmento(nu, 1)];
    var l2 := [Fragmento(ba, 2), Fragmento(ci, 2), Fragmento(es, 2)];
    assert [Fragmento(ru, 1), Fragmento(nu, 1), Fragmento(ba, 2), Fragmento(ci, 2), Fragmento(es, 2)] == l1 + l2;
    PresentesConcat(l1, l2);
    PrimeiraLinhaIntercalada(ru, nu);
    SegundaLinhaIntercalada(ba, ci, es);
    var p1, p2 := Presentes(l1), Presentes(l2);
    assert forall i :: 0 <= i < |p1| ==> p1[i] in l1;
    LinhasIntercaladas(p1, p2);
  }

  lemma PrimeiraLinhaIntercalada(ru: string, nu: string)
    ensures Join(NonEmpty([ru, nu]), ", ") == Intercalar(Presentes([Fragmento(ru, 1), Fragmento(nu, 1)]))
  {
    var l1 := [Fragmento(ru, 1), Fragmento(nu, 1)];
    assert Textos(l1) == [ru, nu];
    LinhaIntercalada(l1, 1);
  }

  lemma SegundaLinhaIntercalada(ba: string, ci: string, es: string)
    ensures Join(NonEmpty([ba, ci, es]), " - ") == Intercalar(Presentes([Fragmento(ba, 2), Fragmento(ci, 2), Fragmento(es, 2)]))
  {
    var l2 := [Fragmento(ba, 2), Fragmento(ci, 2), Fragmento(es, 2)];
    assert Textos(l2) == [ba, ci, es];
    LinhaIntercalada(l2, 2);
  }

  /** `montarEndereco` with tags is the flat reference reading: the non-empty
      fragments in the order street, number, suburb, city, state, with " - "
      between two second-line fragments and ", " otherwise; the fixed text is
      used exactly when every fragment is empty. */
  lemma EnderecoIntercalado(t: Tags)
    ensures var fs := Presentes(Fragmentos(t));
      MontarEndereco(Some(t)) == if fs == [] then ENDERECO_NAO_INFORMADO else Intercalar(fs)
  {
    JuncaoIntercalada(Rua(t), Numero(t), Bairro(t), Cidade(t), Estado(t));
  }

  /** The fixed text is chosen exactly when there are no tags or all five
      fragments are empty. */
  lemma EnderecoPadraoQuandoSemFragmentos(tags: Option<Tags>)
    ensures (tags.None? || (Rua(tags.value) == Numero(tags.value) == Bairro(tags.value)
                            == Cidade(tags.value) == Estado(tags.value) == ""))
            ==> MontarEndereco(tags) == ENDERECO_NAO_INFORMADO
    ensures tags.Some? && Presentes(Fragmentos(tags.value)) != [] ==>
              MontarEndereco(tags) == Intercalar(Presentes(Fragmentos(tags.value)))
  {
    if tags.Some? {
      EnderecoIntercalado(tags.value);
    }
  }

  /** The fixed text is not a sure sign of missing data: a street tag that
      holds that very text yields the same string. */
  lemma EnderecoPadraoLiteral()
    ensures var t := map["addr:street" := ENDERECO_NAO_INFORMADO];
      Presentes(Fragmentos(t)) != [] && MontarEndereco(Some(t)) == ENDERECO_NAO_INFORMADO
  {
    var t := map["addr:street" := ENDERECO_NAO_INFORMADO];
    assert Rua(t) == ENDERECO_NAO_INFORMADO;
    assert Numero(t) == "" && Bairro(t) == "" && Cidade(t) == "" && Estado(t) == "";
    EnderecoIntercalado(t);
  }

  // ---------------------------------------------------------------------
  // Coordinate extraction (extrairCoordenada)
  // ---------------------------------------------------------------------

  /** `extrairCoordenada`: each axis takes the direct field when present and
      the centroid's otherwise, independently of the other axis; no coordinate
      when an axis resolves to nothing. */
  function ExtrairCoordenada(e: OverpassElement): (r: Option<Coordenada>)
    ensures r.None? <==> (e.lat.None? || e.lon.None?) && e.center.None?
    ensures r.Some? && e.lat.Some? ==> r.value.latitude == e.lat.value
    ensures r.Some? && e.lat.None? ==> e.center.Some? && r.value.latitude == e.center.value.lat
    ensures r.Some? && e.lon.Some? ==> r.value.longitude == e.lon.value
    ensures r.Some? && e.lon.None? ==> e.center.Some? && r.value.longitude == e.center.value.lon
  {
    var latitude := if e.lat.Some? then e.lat else if e.center.Some? then Some(e.center.value.lat) else None;
    var longitude := if e.lon.Some? then e.lon else if e.center.Some? then Some(e.center.value.lon) else None;
    if latitude.None? || longitude.None? then None
    else Some(Coordenada(latitude.value, longitude.value))
  }

  // ---------------------------------------------------------------------
  // Facility classification (mapearTipo) and ranking (prioridadeTipo)
  // ---------------------------------------------------------------------

  const HEMOCENTRO: string := "Hemocentro"
  const PONTO_DE_COLETA: string := "Ponto de coleta"
  const HOSPITAL: string := "Hospital"
  const CLINICA: string := "Clínica"

  /** `tags.chave === valor`: false when the key is absent. */
  function TagIgual(tags: Tags, chave: string, valor: string): (b: bool)
    ensures chave !in tags ==> !b
    ensures chave in tags ==> (b <==> tags[chave] == valor)
  {
    chave in tags && tags[chave] == valor
  }

  /** `mapearTipo`: the type label of a facility, from its (already resolved)
      name and its tags. */
  function MapearTipo(nome: string, tags: Option<Tags>): (r: string)
    ensures r == HEMOCENTRO || r == PONTO_DE_COLETA || r == HOSPITAL || r == CLINICA
    ensures tags.None? ==> r == PONTO_DE_COLETA
  {
    match tags
    case None => PONTO_DE_COLETA
    case Some(t) =>
      var nomeNormalizado := ToLower(nome);
      if Includes(nomeNormalizado, "hemocentro") || Includes(nomeNormalizado, "banco de sangue") then
        HEMOCENTRO
      else if TagIgual(t, "amenity", "blood_donation") || TagIgual(t, "healthcare", "blood_donation") then
        PONTO_DE_COLETA
      else if TagIgual(t, "amenity", "hospital") then
        HOSPITAL
      else if TagIgual(t, "healthcare", "clinic") then
        CLINICA
      else
        PONTO_DE_COLETA
  }

  /** One row of the classification table: a test and the label it yields. */
  datatype Regra =
    | NomeContem(termo: string, rotulo: string)
    | TagComValor(chave: string, valor: string, rotulo: string)

  predicate Aplica(regra: Regra, nomeNormalizado: string, tags: Tags) {
    match regra
    case NomeContem(termo, _) => Includes(nomeNormalizado, termo)
    case TagComValor(chave, valor, _) => TagIgual(tags, chave, valor)
  }

  /** The classification as an ordered table, read top to bottom. */
  const REGRAS: seq<Regra> := [
    NomeContem("hemocentro", HEMOCENTRO),
    NomeContem("banco de sangue", HEMOCENTRO),
    TagComValor("amenity", "blood_donation", PONTO_DE_COLETA),
    TagComValor("healthcare", "blood_donation", PONTO_DE_COLETA),
    TagComValor("amenity", "hospital", HOSPITAL),
    TagComValor("healthcare", "clinic", CLINICA)
  ]

  /** The label of the first rule from position `desde` on that applies, or
      `padrao` when none does. */
  function PrimeiraRegra(regras: seq<Regra>, desde: nat, nomeNormalizado: string, tags: Tags, padrao: string): (r: string)
    requires desde <= |regras|
    ensures forall i :: (desde <= i < |regras| && Aplica(regras[i], nomeNormalizado, tags)
      && forall j :: desde <= j < i ==> !Aplica(regras[j], nomeNormalizado, tags)) ==> r == regras[i].rotulo
    ensures (forall i :: desde <= i < |regras| ==> !Aplica(regras[i], nomeNormalizado, tags)) ==> r == padrao
    decreases |regras| - desde
  {
    if desde == |regras| then padrao
    else if Aplica(regras[desde], nomeNormalizado, tags) then regras[desde].rotulo
    else PrimeiraRegra(regras, desde + 1, nomeNormalizado, tags, padrao)
  }

  /** `mapearTipo` with tags is the first-match reading of the table: the name
      tests come before every tag test, and the default is "Ponto de coleta". */
  lemma MapearTipoSegueTabela(nome: string, t: Tags)
    ensures MapearTipo(nome, Some(t)) == PrimeiraRegra(REGRAS, 0, ToLower(nome), t, PONTO_DE_COLETA)
  {
    var n, p := ToLower(nome), PONTO_DE_COLETA;
    RegrasDeTag(n, t);
    assert PrimeiraRegra(REGRAS, 1, n, t, p)
      == if Includes(n, "banco de sangue") then HEMOCENTRO else PrimeiraRegra(REGRAS, 2, n, t, p);
    assert PrimeiraRegra(REGRAS, 0, n, t, p)
      == if Includes(n, "hemocentro") then HEMOCENTRO else PrimeiraRegra(REGRAS, 1, n, t, p);
  }

  /** The tag rows of the table, read top to bottom after the name tests. */
  lemma RegrasDeTag(n: string, t: Tags)
    ensures PrimeiraRegra(REGRAS, 2, n, t, PONTO_DE_COLETA) ==
      if TagIgual(t, "amenity", "blood_donation") || TagIgual(t, "healthcare", "blood_donation") then PONTO_DE_COLETA
      else if TagIgual(t, "amenity", "hospital") then HOSPITAL
      else if TagIgual(t, "healthcare", "clinic") then CLINICA
      else PONTO_DE_COLETA
  {
    var p := PONTO_DE_COLETA;
    assert PrimeiraRegra(REGRAS, 6, n, t, p) == p;
    assert PrimeiraRegra(REGRAS, 5, n, t, p) == if TagIgual(t, "healthcare", "clinic") then CLINICA else p;
    assert PrimeiraRegra(REGRAS, 4, n, t, p)
      == if TagIgual(t, "amenity", "hospital") then HOSPITAL else PrimeiraRegra(REGRAS, 5, n, t, p);
    assert PrimeiraRegra(REGRAS, 3, n, t, p)
      == if TagIgual(t, "healthcare", "blood_donation") then p else PrimeiraRegra(REGRAS, 4, n, t, p);
  }

  /** A name mentioning a hemocentre or blood bank (in any ASCII letter case)
      wins over whatever the tags say. */
  lemma NomePrevaleceSobreTags(nome: string, t: Tags, t': Tags)
    requires Includes(ToLower(nome), "hemocentro") || Includes(ToLower(nome), "banco de sangue")
    ensures MapearTipo(nome, Some(t)) == MapearTipo(nome, Some(t')) == HEMOCENTRO
  {
  }

  /** `prioridadeTipo`: Hemocentro first, then "Ponto de coleta", then the rest. */
  function PrioridadeTipo(tipo: string): (r: int)
    ensures 0 <= r <= 2
    ensures r == 0 <==> tipo == HEMOCENTRO
    ensures r == 1 <==> tipo == PONTO_DE_COLETA
  {
    if tipo == HEMOCENTRO then 0
    else if tipo == PONTO_DE_COLETA then 1
    else 2
  }

  /** On the labels `mapearTipo` produces, rank 2 means hospital or clinic. */
  lemma PrioridadeDosTipos(nome: string, tags: Option<Tags>)
    ensures var tipo := MapearTipo(nome, tags);
      PrioridadeTipo(tipo) == 2 <==> tipo == HOSPITAL || tipo == CLINICA
  {
  }

  // ---------------------------------------------------------------------
  // Overpass query (montarQueryOverpass)
  // ---------------------------------------------------------------------

  /** The four tag filters the query asks for, each closing its clause. */
  const FILTROS: seq<string> := [
    "[amenity=blood_donation];\n", "[healthcare=blood_donation];\n",
    "[amenity=hospital];\n", "[healthcare=clinic];\n"]

  /** The three element kinds, each indented as in the template. */
  const TIPOS_ELEMENTO: seq<string> := ["  node", "  way", "  relation"]

  const CABECALHO: string := "\n[out:json][timeout:25];\n(\n"
  const RODAPE: string := ");\nout center tags;\n"

  /** `montarQueryOverpass`, written out as the template is (one parenthesised
      group per template line); `texto` is the number-to-string conversion
      used for the coordinates. The template is the header, the twelve
      clauses of the product of the filters and the element kinds, and the
      footer. */
  function MontarQueryOverpass(c: Coordenada, texto: real -> string): (q: string)
    ensures q == Montar(Clausulas(c, texto))
  {
    ClausulasAmenityDoacao(c, texto);
    ClausulasHealthcareDoacao(c, texto);
    ClausulasHospital(c, texto);
    ClausulasClinica(c, texto);
    var a := Area(c, texto);
    "\n[out:json][timeout:25];\n(\n"
    + ("  node" + a + "[amenity=blood_donation];\n")
    + ("  way" + a + "[amenity=blood_donation];\n")
    + ("  relation" + a + "[amenity=blood_donation];\n")
    + "\n"
    + ("  node" + a + "[healthcare=blood_donation];\n")
    + ("  way" + a + "[healthcare=blood_donation];\n")
    + ("  relation" + a + "[healthcare=blood_donation];\n")
    + "\n"
    + ("  node" + a + "[amenity=hospital];\n")
    + ("  way" + a + "[amenity=hospital];\n")
    + ("  relation" + a + "[amenity=hospital];\n")
    + "\n"
    + ("  node" + a + "[healthcare=clinic];\n")
    + ("  way" + a + "[healthcare=clinic];\n")
    + ("  relation" + a + "[healthcare=clinic];\n")
    + ");\nout center tags;\n"
  }

  /** `around:<radius>,<lat>,<lon>` in parentheses. */
  function Area(c: Coordenada, texto: real -> string): string {
    "(around:" + IntToString(RAIO_MAXIMO_METROS) + "," + texto(c.latitude) + "," + texto(c.longitude) + ")"
  }

  /** The search circle is written with a radius of 15000 metres. */
  lemma AreaComRaio15000(c: Coordenada, texto: real -> string)
    ensures Area(c, texto) == "(around:15000," + texto(c.latitude) + "," + texto(c.longitude) + ")"
  {
    NumeroDoRaio();
  }

  /** The radius is printed as the five digits 15000. */
  lemma NumeroDoRaio()
    ensures IntToString(RAIO_MAXIMO_METROS) == "15000"
  {
    NatToStringStep(1, 5);
    NatToStringStep(15, 0);
    NatToStringStep(150, 0);
    NatToStringStep(1500, 0);
  }

  /** One clause of the query: an element kind, the search circle, a tag filter. */
  function Clausula(tipo: string, filtro: string, c: Coordenada, texto: real -> string): string {
    tipo + Area(c, texto) + filtro
  }

  /** The product of the four filters and the three element kinds, filter by
      filter and, inside each filter, node, way, relation. */
  function Clausulas(c: Coordenada, texto: real -> string): (r: seq<string>)
    ensures |r| == |FILTROS| * |TIPOS_ELEMENTO| == 12
  {
    seq(12, i requires 0 <= i < 12 => Clausula(TIPOS_ELEMENTO[i % 3], FILTROS[i / 3], c, texto))
  }

  /** The query around a list of twelve clauses: header, the clauses with an
      empty line before each new filter group, footer. */
  function Montar(cl: seq<string>): string
    requires |cl| == 12
  {
    CABECALHO + cl[0] + cl[1] + cl[2] + "\n" + cl[3] + cl[4] + cl[5] + "\n"
    + cl[6] + cl[7] + cl[8] + "\n" + cl[9] + cl[10] + cl[11] + RODAPE
  }

  /** The three template lines for `amenity=blood_donation` are clauses 0, 1 and 2. */
  lemma ClausulasAmenityDoacao(c: Coordenada, texto: real -> string)
    ensures var a, cl := Area(c, texto), Clausulas(c, texto);
      && cl[0] == "  node" + a + "[amenity=blood_donation];\n"
      && cl[1] == "  way" + a + "[amenity=blood_donation];\n"
      && cl[2] == "  relation" + a + "[amenity=blood_donation];\n"
  {
    Uma(c, texto, 0, "  node", "[amenity=blood_donation];\n");
    Uma(c, texto, 1, "  way", "[amenity=blood_donation];\n");
    Uma(c, texto, 2, "  relation", "[amenity=blood_donation];\n");
  }

  /** The three template lines for `healthcare=blood_donation` are clauses 3, 4 and 5. */
  lemma ClausulasHealthcareDoacao(c: Coordenada, texto: real -> string)
    ensures var a, cl := Area(c, texto), Clausulas(c, texto);
      && cl[3] == "  node" + a + "[healthcare=blood_donation];\n"
      && cl[4] == "  way" + a + "[healthcare=blood_donation];\n"
      && cl[5] == "  relation" + a + "[healthcare=blood_donation];\n"
  {
    Uma(c, texto, 3, "  node", "[healthcare=blood_donation];\n");
    Uma(c, texto, 4, "  way", "[healthcare=blood_donation];\n");
    Uma(c, texto, 5, "  relation", "[healthcare=blood_donation];\n");
  }

  /** The three template lines for `amenity=hospital` are clauses 6, 7 and 8. */
  lemma ClausulasHospital(c: Coordenada, texto: real -> string)
    ensures var a, cl := Area(c, texto), Clausulas(c, texto);
      && cl[6] == "  node" + a + "[amenity=hospital];\n"
      && cl[7] == "  way" + a + "[amenity=hospital];\n"
      && cl[8] == "  relation" + a + "[amenity=hospital];\n"
  {
    Uma(c, texto, 6, "  node", "[amenity=hospital];\n");
    Uma(c, texto, 7, "  way", "[amenity=hospital];\n");
    Uma(c, texto, 8, "  relation", "[amenity=hospital];\n");
  }

  /** The three template lines for `healthcare=clinic` are clauses 9, 10 and 11. */
  lemma ClausulasClinica(c: Coordenada, texto: real -> string)
    ensures var a, cl := Area(c, texto), Clausulas(c, texto);
      && cl[9] == "  node" + a + "[healthcare=clinic];\n"
      && cl[10] == "  way" + a + "[healthcare=clinic];\n"
      && cl[11] == "  relation" + a + "[healthcare=clinic];\n"
  {
    Uma(c, texto, 9, "  node", "[healthcare=clinic];\n");
    Uma(c, texto, 10, "  way", "[healthcare=clinic];\n");
    Uma(c, texto, 11, "  relation", "[healthcare=clinic];\n");
  }

  /** Clause `i` of the product, with its kind and filter spelled out. */
  lemma Uma(c: Coordenada, texto: real -> string, i: nat, tipo: string, filtro: string)
    requires i < 12 && tipo == TIPOS_ELEMENTO[i % 3] && filtro == FILTROS[i / 3]
    ensures Clausulas(c, texto)[i] == tipo + Area(c, texto) + filtro
  {
  }
}
