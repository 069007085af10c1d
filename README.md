# Blood-donation point search over OpenStreetMap, in Dafny

This project models the result-processing core of the app's
OpenStreetMap/Overpass search service (`src/services/osm.ts`). Given the
user's position, the service works in four stages:

1. It builds an Overpass QL query: twelve `around:15000,<lat>,<lon>` clauses.
2. It sends the query and gives up with an error when the answer is not a success.
3. It walks the returned elements. It skips elements without a usable
   coordinate or farther than 15 km, and de-duplicates the rest on a text key
   through an insertion-ordered `Map`.
4. It sorts the kept points by type rank (hemocentre, collection point,
   anything else) and rounded distance.

The project has these files:

- `wrappers.dfy` (`Wrappers`): `Option`, which also models `??` as `GetOr`, and `Result`, which models a call that may throw.
- `js_string.dfy` (`JsString`): the JavaScript string built-ins the service relies on.
  - `trim`, with the full ECMAScript whitespace set.
  - `toLowerCase`, on ASCII letters only.
  - `includes`.
  - `filter(Boolean)` followed by `join`.
  - `String(n)` for integers.
- `hemocentro.dfy` (`Hemocentro`): the records `Coordenada` and `HemocentroProximo` (`src/types/hemocentro.ts:1-14`).
- `osm.dfy` (`Osm`): the pure helpers.
  - The `OverpassElement` record (`src/services/osm.ts:7-16`).
  - `montarEndereco`, `extrairCoordenada`, `mapearTipo`, `prioridadeTipo` and `montarQueryOverpass`.
  - A reference reading of three helpers: a flat reading of the address, a first-match rule table for the classification, and the clause product for the query.
- `osm_busca.dfy` (`OsmBusca`): the body of `buscarHemocentrosProximos`.
  - The insertion-ordered `Map` as the value type `MapaOrdenado`.
  - The per-element candidate.
  - The loop, as a method whose invariant ties the map to a fold over the elements seen so far (`Agregar`).
  - `Array.prototype.sort` with the source's comparator, as a stable insertion sort (`Ordenar`). Its lemmas prove it sorted, a permutation and stable. They also prove it is the only stable result.
  - The properties of the returned list.

Floating-point arithmetic is not modelled. The three numeric primitives are parameters, bundled in the datatype `OsmBusca.Numericos`:

- `distanciaKm`: the haversine distance;
- `arredondar`: `Number(x.toFixed(1))`;
- `texto`: how a coordinate is printed inside a template string.

The HTTP round trip is the parameter `overpass: string -> Resposta`. It maps the query text to the answer's `ok` flag and its decoded `elements` (which may be absent).

## Model

| member | source | states |
|---|---|---|
| JsString.TrimStartIndex | src/services/osm.ts:162 | the text starts at the first character that is not whitespace: everything before it is whitespace |
| JsString.TrimEndIndex | src/services/osm.ts:162 | the text ends just after the last character that is not whitespace: everything after it is whitespace |
| JsString.Trim | src/services/osm.ts:162 | `trim()`: an infix of the input that keeps every character that is not whitespace, drops only whitespace, and has no whitespace at either end |
| JsString.LowerChar | src/services/osm.ts:74 | an ASCII capital becomes its own lower-case letter (code point plus 32); every other character is kept |
| JsString.ToLower | src/services/osm.ts:74 | `toLowerCase()`: same length, no ASCII capital left in the result, and only capitals change |
| JsString.ToLowerIdempotent | src/services/osm.ts:74 | lowering an already lowered name changes nothing |
| JsString.Includes | src/services/osm.ts:76 | `includes(t)` holds exactly when `t` occurs at some position of the string |
| JsString.IndexOf | src/services/osm.ts:76 | the first position of an occurrence, or -1 exactly when there is none; no occurrence starts earlier |
| JsString.NonEmpty | src/services/osm.ts:51-53 | `filter(Boolean)` on strings: no part in the result is empty; one part is kept exactly when it is non-empty; the result is empty exactly when every part is |
| JsString.NonEmptyConcat | src/services/osm.ts:51-53 | filtering a concatenation filters each side; with the one-part case this keeps every non-empty part, in order, and nothing else |
| JsString.JoinConcat | src/services/osm.ts:51-53 | `join(sep)` of two non-empty lists put together is the two joins with `sep` between them |
| JsString.JoinEmpty | src/services/osm.ts:51-53 | joining non-empty parts gives the empty string exactly when there are no parts |
| JsString.IntToString | src/services/osm.ts:172 | `${id}` of an integer is never empty |
| JsString.NatToString | src/services/osm.ts:172 | decimal digits only, at least one, and no leading zero |
| JsString.NatRoundTrip | src/services/osm.ts:172 | reading the printed digits of a natural number back gives the number |
| JsString.IntRoundTrip | src/services/osm.ts:172 | reading the printed digits back gives the integer: printing loses nothing |
| JsString.IntToStringInjective | src/services/osm.ts:172 | two different element ids never give the same printed id |
| Osm.PrimeiroPresente | src/services/osm.ts:45-49 | a `??` chain over tag lookups takes the value of the first PRESENT key, even when that value is empty; it is `''` when no key is present |
| Osm.Rua | src/services/osm.ts:45 | the street is `addr:street` when present (even empty), else `street`, else `''` |
| Osm.Numero | src/services/osm.ts:46 | the number is `addr:housenumber` when present, else `''` |
| Osm.Bairro | src/services/osm.ts:47 | the suburb is `addr:suburb` when present, else `addr:neighbourhood`, else `''` |
| Osm.Cidade | src/services/osm.ts:48 | the city is `addr:city` when present, else `addr:town`, else `addr:village`, else `''` |
| Osm.Estado | src/services/osm.ts:49 | the state is `addr:state` when present, else `''` |
| Osm.MontarEndereco | src/services/osm.ts:40-56 | the address is never empty, and it is the fixed "Endereço não informado" when there are no tags |
| Osm.Presentes | src/services/osm.ts:51-53 | `filter(Boolean)` on fragments: every kept fragment is non-empty and from the input; one fragment is kept exactly when its text is non-empty; with `PresentesConcat`, every non-empty fragment is kept, in order |
| Osm.PresentesConcat | src/services/osm.ts:51-53 | dropping empty fragments distributes over concatenation |
| Osm.PresentesTextos | src/services/osm.ts:51-53 | dropping empty fragments then taking texts equals `filter(Boolean)` on the texts |
| Osm.IntercalarLinha | src/services/osm.ts:51-52 | inside one line, the flat reading is that line's own join (", " for line 1, " - " for line 2) |
| Osm.IntercalarLinhas | src/services/osm.ts:53 | between a non-empty first line and a non-empty second line, the flat reading puts ", " |
| Osm.IntercalarVazio | src/services/osm.ts:53-55 | the flat reading of non-empty fragments is empty exactly when there are none |
| Osm.LinhaIntercalada | src/services/osm.ts:51-52 | joining the non-empty texts of one line equals the flat reading of that line's non-empty fragments |
| Osm.LinhasIntercaladas | src/services/osm.ts:53 | joining the two non-empty lines with ", " equals the flat reading of all non-empty fragments, which is empty only when there are none |
| Osm.JuncaoIntercalada | src/services/osm.ts:51-53 | the two-level join of lines 51-53 equals the flat reading of the non-empty fragments: street, number, suburb, city, state, with " - " between two second-line fragments and ", " elsewhere; it is empty exactly when every fragment is |
| Osm.EnderecoIntercalado | src/services/osm.ts:40-56 | with tags, the address is the flat reading of the non-empty resolved fragments, or the fixed text when there are none |
| Osm.EnderecoPadraoQuandoSemFragmentos | src/services/osm.ts:40-56 | the fixed text is chosen when there are no tags or all five resolved fragments are empty; otherwise the flat reading is returned |
| Osm.EnderecoPadraoLiteral | src/services/osm.ts:45-55 | a street tag that holds the fixed text itself gives the same string, although a fragment is present |
| Osm.ExtrairCoordenada | src/services/osm.ts:58-67 | no coordinate exactly when an axis lacks both its direct field and a centre; each axis independently takes the direct field when present and the centre's otherwise |
| Osm.TagIgual | src/services/osm.ts:80-88 | `tags.k === v`: an absent key never matches; a present key matches exactly its own value |
| Osm.MapearTipo | src/services/osm.ts:69-93 | the label is always one of "Hemocentro", "Ponto de coleta", "Hospital", "Clínica", and it is "Ponto de coleta" without tags |
| Osm.PrimeiraRegra | src/services/osm.ts:74-92 | an ordered rule table yields the label of the first applicable rule, or the default when none applies |
| Osm.MapearTipoSegueTabela | src/services/osm.ts:69-93 | with tags, the classification is the first-match reading of the six rules in source order (the two name tests, the two blood-donation tags, hospital, clinic), with default "Ponto de coleta" |
| Osm.RegrasDeTag | src/services/osm.ts:80-92 | after the name tests, the table reads the blood-donation tags, then hospital, then clinic, defaulting to "Ponto de coleta" |
| Osm.NomePrevaleceSobreTags | src/services/osm.ts:76-78 | a name whose lower-cased form contains "hemocentro" or "banco de sangue" gives "Hemocentro" whatever the tags are |
| Osm.PrioridadeTipo | src/services/osm.ts:95-105 | the rank is 0 exactly for "Hemocentro", 1 exactly for "Ponto de coleta", and 2 otherwise |
| Osm.PrioridadeDosTipos | src/services/osm.ts:69-105 | on the labels the classification produces, rank 2 means exactly hospital or clinic |
| Osm.MontarQueryOverpass | src/services/osm.ts:107-127 | the query template, written out line by line, is the header, the twelve clauses of the product of the four filters and node/way/relation in order (an empty line between filter groups), then `out center tags;` |
| Osm.Clausulas | src/services/osm.ts:110-124 | there are exactly 4 × 3 = 12 clauses; `ClausulasAmenityDoacao`, `ClausulasHealthcareDoacao`, `ClausulasHospital` and `ClausulasClinica` state their contents (node, way and relation for each of the four filters) |
| Osm.NumeroDoRaio | src/services/osm.ts:4 | the radius constant is printed as the digits 15000 |
| Osm.AreaComRaio15000 | src/services/osm.ts:110 | every clause's search circle is written `(around:15000,<lat>,<lon>)` |
| Osm.ClausulasAmenityDoacao | src/services/osm.ts:110-112 | the first three template lines are node, way and relation with filter amenity=blood_donation, clauses 0 to 2 of the product |
| Osm.ClausulasHealthcareDoacao | src/services/osm.ts:114-116 | the next three are node, way and relation with healthcare=blood_donation, clauses 3 to 5 |
| Osm.ClausulasHospital | src/services/osm.ts:118-120 | then node, way and relation with amenity=hospital, clauses 6 to 8 |
| Osm.ClausulasClinica | src/services/osm.ts:122-124 | last node, way and relation with healthcare=clinic, clauses 9 to 11 |
| OsmBusca.MapaOrdenado.Has | src/services/osm.ts:167 | `map.has(k)` holds exactly when some stored key equals `k` |
| OsmBusca.MapaOrdenado.Set | src/services/osm.ts:171 | `map.set` on a map with distinct keys: a new key is appended with its value; an existing key keeps its place and gets the new value; keys stay distinct |
| OsmBusca.MapaOrdenado.SetHas | src/services/osm.ts:167-171 | after `map.set(k, v)`, `has` holds of `k` and of the keys it held of before, and of nothing else |
| OsmBusca.Posicao | src/services/osm.ts:171 | the first position of a present key |
| OsmBusca.NomeDe | src/services/osm.ts:162 | the name is never empty and has no whitespace at either end; it is the trimmed `name` tag unless that is missing or blank, in which case it is "Ponto de Coleta" |
| OsmBusca.ChaveUnica | src/services/osm.ts:165 | the key `${nome}-${lat}-${lon}` is, position by position, the name, a dash, the printed latitude, a dash, the printed longitude, and nothing more; `ChaveAmbigua` shows it is not injective |
| OsmBusca.Normalizar | src/services/osm.ts:171-179 | the stored item has the extracted coordinate and the rounded distance |
| OsmBusca.Candidato | src/services/osm.ts:150-179 | an element contributes nothing exactly when it has no coordinate or its unrounded distance exceeds 15 km; otherwise its key is the item's own `${nome}-${lat}-${lon}` and the item is filled from the element |
| OsmBusca.Deduplicar | src/services/osm.ts:147-180 | the map the loop builds always has distinct keys, one value each |
| OsmBusca.PrimeiraOcorrencia | src/services/osm.ts:167-169 | the index of the first entry with a key: no earlier entry has it |
| OsmBusca.PrimeiraOcorrenciaPrefixo | src/services/osm.ts:167-169 | seeing more elements does not move a first occurrence already seen |
| OsmBusca.DeduplicarGuardaPrimeiros | src/services/osm.ts:147-180 | the loop stores, for each key, the first entry with it; it stores every key; and it stores keys in order of their first entries |
| OsmBusca.Passo | src/services/osm.ts:167-179 | one iteration leaves the map as it is (skipped element or known key) or appends the new key and item |
| OsmBusca.PrimeirasNoPasso | src/services/osm.ts:167-179 | after one more iteration, stored keys keep their first occurrence, and a newly stored key first occurs at the new element |
| OsmBusca.PassoPreservaGuarda | src/services/osm.ts:167-179 | one iteration keeps "each stored item is its key's first entry" |
| OsmBusca.PassoPreservaCompleto | src/services/osm.ts:167-179 | one iteration keeps "every candidate's key is stored" |
| OsmBusca.PassoPreservaOrdem | src/services/osm.ts:167-179 | one iteration keeps "keys in order of first arrival" |
| OsmBusca.AgregarGuardaPrimeiros | src/services/osm.ts:147-180 | for the elements: each stored item comes from the first in-range element with its key; every in-range element's key is stored; storage follows arrival order; stored keys are distinct and each is its item's own |
| OsmBusca.Comparar | src/services/osm.ts:182-190 | the comparator is negative exactly when `a` has the lower type rank, or the same rank and the smaller rounded distance |
| OsmBusca.CompararOrdemTotal | src/services/osm.ts:182-190 | the comparator is antisymmetric and transitive; it returns 0 exactly on equal (type rank, rounded distance) |
| OsmBusca.Inserir | src/services/osm.ts:182-190 | insertion adds exactly the one item |
| OsmBusca.Ordenar | src/services/osm.ts:182-190 | the sort is a permutation of the map's values |
| OsmBusca.InserirOrdenado | src/services/osm.ts:182-190 | insertion into a sorted list keeps it sorted |
| OsmBusca.CabecaAntesDoInserido | src/services/osm.ts:182-190 | when an item goes after the head of a sorted list, the head still compares at most equal to everything after it |
| OsmBusca.OrdenarOrdena | src/services/osm.ts:182-190 | the sorted list is in non-decreasing (type rank, rounded distance) order |
| OsmBusca.InserirEstavel | src/services/osm.ts:182-190 | insertion puts the new item ahead of every item tied with it |
| OsmBusca.OrdenarEstavel | src/services/osm.ts:182-190 | stability: for each (rank, distance) pair, the tied items keep their input order |
| OsmBusca.EmpatadosContidos | src/services/osm.ts:182-190 | the tie class of a pair holds only items of the list that have that pair |
| OsmBusca.VazioPorEmpates | src/services/osm.ts:182-190 | a list whose every tie class is empty is empty |
| OsmBusca.CabecaMinima | src/services/osm.ts:182-190 | the head of a sorted list compares at most equal to every item |
| OsmBusca.MesmaCabeca | src/services/osm.ts:182-190 | two sorted lists with the same tie classes start with the same item |
| OsmBusca.OrdenadosComMesmosEmpates | src/services/osm.ts:182-190 | two sorted lists with the same tie classes are equal |
| OsmBusca.OrdenacaoEstavelUnica | src/services/osm.ts:182-190 | any stable sort with this comparator gives exactly `Ordenar`'s result, so the choice of insertion sort does not matter |
| OsmBusca.InserirChavesDistintas | src/services/osm.ts:182-190 | insertion of an item with a new key keeps keys distinct |
| OsmBusca.OrdenarChavesDistintas | src/services/osm.ts:182-190 | sorting keeps keys distinct |
| OsmBusca.Resultado | src/services/osm.ts:182 | the returned list is a permutation of the map's values; `ResultadoOrdenadoSemRepeticao`, `ResultadoVemDeElementos` and `ResultadoCompleto` state its order and contents |
| OsmBusca.ResultadoVemDeElementos | src/services/osm.ts:149-179 | every returned item is the candidate of an element with a coordinate and an unrounded distance of at most 15 km, and no earlier element had its key |
| OsmBusca.ItemVemDeElemento | src/services/osm.ts:149-179 | each stored item comes from the first in-range element with its key |
| OsmBusca.EntradaDoMapa | src/services/osm.ts:167-179 | each stored entry is the first entry with its key |
| OsmBusca.ItensDoResultado | src/services/osm.ts:162-179 | each returned item has its element's printed id, trimmed-or-default name, type from that name and the tags, address from the tags, extracted coordinate and rounded distance |
| OsmBusca.CandidatoNoRaio | src/services/osm.ts:150-165 | an element that contributes an entry has a coordinate within 15 km, and its key is its item's own |
| OsmBusca.ResultadoCompleto | src/services/osm.ts:149-180 | every element with a coordinate within 15 km is represented by a returned item with its key |
| OsmBusca.ResultadoOrdenadoSemRepeticao | src/services/osm.ts:165-190 | no two returned items share a key; the list is sorted by (type rank, rounded distance); tied items keep the map's insertion order |
| OsmBusca.DistanciasNoRaio | src/services/osm.ts:156-178 | with a monotone rounding that keeps 15, every returned distance is at most 15 km |
| OsmBusca.SomenteCentroSemTags | src/services/osm.ts:149-179 | an in-range element known only by its centre and without tags gives one item: name "Ponto de Coleta", type "Ponto de coleta", the fixed address, the centre's coordinate, the printed id |
| OsmBusca.ForaDoRaioDescartado | src/services/osm.ts:156-160 | an element beyond 15 km leaves the map unchanged |
| OsmBusca.ChaveAmbigua | src/services/osm.ts:165 | the key is plain text: "A" at latitude -1 and "A-" at latitude 1 (same longitude) get the same key |
| OsmBusca.DuplicadosColapsam | src/services/osm.ts:162-179 | two in-range elements with the same resolved name and coordinate yield one item, the first one's |
| OsmBusca.ChaveDoCandidato | src/services/osm.ts:162-165 | an element's key is built from its resolved name and its extracted coordinate |
| OsmBusca.MesmaChaveColapsa | src/services/osm.ts:167-169 | a second entry with a known key is not stored |
| OsmBusca.BuscarHemocentrosProximos | src/services/osm.ts:129-190 | fails with "Falha ao consultar OpenStreetMap" exactly when the answer is not ok; otherwise returns the stable sort of the de-duplicated in-range items of `elements ?? []` |

## Left out

- The HTTP request is not modelled: `fetch`, the POST with its `Content-Type` header, `OVERPASS_URL`, `async`/`await` and `resposta.json()` (src/services/osm.ts:3, 134-146). It is the function parameter `overpass`. A rejected `fetch` and a malformed JSON body, which throw in the source, are not modelled.
- `toRadians` and `calcularDistanciaKm` (src/services/osm.ts:22-38) are floating-point trigonometry. They are the abstract parameter `Numericos.distanciaKm`. Its symmetry and its zero at equal points cannot be derived from the source and are not claimed.
- `Number(distanciaKm.toFixed(1))` (src/services/osm.ts:178) is the abstract parameter `Numericos.arredondar`.
- The conversion of a coordinate to text inside the query and the key (src/services/osm.ts:110-124, 165) is the abstract parameter `Numericos.texto`.
- Numbers are reals. NaN, infinities and IEEE rounding are not modelled. The comparator's subtraction, and the `>` test against 15, are exact.
- `toLowerCase` lowers ASCII letters only. Accented capitals in a name are kept as they are.
- Element ids are integers printed in plain decimal. JavaScript prints integers of 10^21 and above in exponent notation; that is not modelled.
- The `Map` is local to `buscarHemocentrosProximos`, so it is a value (`MapaOrdenado`) that the loop reassigns, not an object. The loop uses only its `has` and `set`; `values()` (src/services/osm.ts:182) is `MapaOrdenado.Values`.
- `src/router/deslogado.ts` is not part of this model. It is a route table with no logic.
- OsmBusca.DistanciasNoRaio: stated only for a rounding that is monotone and keeps 15.0 fixed. The source filters on the unrounded distance, so without those assumptions nothing bounds the stored rounded distance.
- Osm.EnderecoPadraoQuandoSemFragmentos: the "exactly when" holds for the choice of the fixed text, not for the returned string. `Osm.EnderecoPadraoLiteral` shows a present fragment that yields the same text.
- Osm.MontarEndereco: its own contract states only non-emptiness and the no-tags case. The full shape of the address is stated by `Osm.EnderecoIntercalado` and `Osm.JuncaoIntercalada`.
