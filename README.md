# Recintos do Zoo — a Dafny model of the enclosure analysis

The zoo keeps a catalog of five enclosures (`recintos`: number, biome, capacity,
current occupants) and six species (`animais`: name, size, biome, carnivore
flag). `RecintosZoo.analisaRecintos(animal, quantidade)` answers which
enclosures can take `quantidade` new animals of the species `animal`:

1. the species is looked up by name, ignoring case; no match gives the error
   "Animal inválido";
2. a quantity that is not positive gives "Quantidade inválida";
3. each enclosure is kept when the species tolerates one of its biomes, there
   is room for the newcomers (one extra unit is charged when the enclosure
   already holds several species and the request name is not among them),
   carnivores meet only their own kind, the hippopotamus rule and the monkey
   rule hold, and every current occupant stays comfortable;
4. each kept enclosure is described as
   `Recinto N (espaço livre: F total: T)`; none kept gives "Não há recinto viável".

The model is pure, as the source is: the constructor's two tables are a
`Zoo` value (`RecintosZoo.Novo`), and every method is a function of the
catalog and its arguments. `Viavel` is the filter callback, `Descreve` the
computation of the reported free space, `Avalia` the decision as a datatype
(`Falha(erro)` or `Sucesso(vagas)`) and `Responde` its rendering as the
returned object (`RespostaErro` / `RespostaRecintos`).
`AnalisaRecintos` is the composition of the two.

Files:

- `texto.dfy` (module `Texto`): the JavaScript built-ins the code relies on.
  ASCII `toLowerCase`, `split` with its inverse `Join`, and the decimal
  rendering of an integer inside a template literal.
- `recintos_zoo.dfy` (module `RecintosZoo`): the catalog, the helpers
  `temEspecieDiferentes`, `temCarnivoro` and `biomaCompativel`, and
  `analisaRecintos`.
- `propriedades.dfy` (module `Propriedades`): the properties that hold for
  every catalog and every request.
- `teste.dfy` (module `Teste`): requests against the constructor's catalog,
  worked out to their exact answers. These include the two calls of
  `src/teste.js`.

The species lookup at `src/recintos-zoo.js:46` is the only step that ignores
case. The space surcharge (line 71), the carnivore rule (line 86), the
hippopotamus rule (line 91) and the monkey rule (line 96) compare the
request string as given. The model keeps this behaviour:

- `"MACACO"` is placed in the empty enclosure 2 and `"macaco"` is not
  (`Teste.MacacoMaiusculo`, `Teste.MacacoMinusculo`).
- An upper-case `"HIPOPOTAMO"` is placed in the occupied savanna enclosure 1
  and `"hipopotamo"` is not (`Teste.HipopotamoMaiusculo`,
  `Teste.HipopotamoMinusculo`).

The comment above the hippopotamus rule (`src/recintos-zoo.js:90`) states
it for hippopotamuses in general. The test below it (line 91) compares the
raw request string with `'hipopotamo'`, so an upper-case request escapes the
rule. The model follows the test as written.

## Definitions

Each function of the model and the source lines it models. Functions without
a contract of their own are characterised by the lemmas named beside them.

- `RecintosZoo.AnalisaRecintos`, the composition of `Avalia` and `Responde`
  (src/recintos-zoo.js:44-138). Its properties are
  `Propriedades.AnimalInvalidoPrimeiro`, `Propriedades.QuantidadeInvalidaSe`,
  `Propriedades.SemRecintoViavelSe` and `Propriedades.FormaDaResposta`.
- `RecintosZoo.Avalia` (src/recintos-zoo.js:46-55, 116-136) is the decision.
  Its properties are the four above plus `Propriedades.VagasSaoViaveis`,
  `Propriedades.ViaveisSaoListados` and `Propriedades.RespostaMonotona`.
- `RecintosZoo.Responde` and `RecintosZoo.Mensagem`
  (src/recintos-zoo.js:48, 51, 132-136) render the outcome as the returned
  object. Their properties are `Propriedades.FormaDaResposta` and
  `Propriedades.FormataInjective`.
- `RecintosZoo.Viavel` (src/recintos-zoo.js:56-112) is the filter callback.
  `RecintosZoo.Criterio` wraps it as a closure and `RecintosZoo.Filtra`
  applies it (src/recintos-zoo.js:55).
  Their properties are `Propriedades.FiltraPertence`,
  `Propriedades.ViavelMonotono`, `Propriedades.ViavelCarnivoros`,
  `Propriedades.CarnivoroEmMaiusculas`, `Propriedades.ViavelHipopotamo`,
  `Propriedades.ViavelMacaco`, `Propriedades.ViavelBiomaEOcupantes` and
  `Propriedades.OcupanteDesconhecido`.
- `RecintosZoo.TemEspecieDiferentes` (src/recintos-zoo.js:23-26). Its property
  is `Propriedades.TemEspecieDiferentesSe`.
- `RecintosZoo.TemCarnivoro` and `RecintosZoo.EhCarnivoro`
  (src/recintos-zoo.js:29-34). Their properties are
  `Propriedades.HomogeneoEspecies`, `Propriedades.ViavelCarnivoros` and
  `Propriedades.OcupanteDesconhecido`.
- `RecintosZoo.BiomaCompativel`, `RecintosZoo.BiomasAnimal` and
  `RecintosZoo.BiomasRecinto` (src/recintos-zoo.js:37-41). Their properties
  are `Texto.Split`, `Propriedades.ViavelBiomaEOcupantes`,
  `Teste.BiomasDosRecintos` and `Teste.BiomasDasEspecies`.
- `RecintosZoo.EspacoOcupado` and `RecintosZoo.TamanhoOcupante`
  (src/recintos-zoo.js:62-65, repeated at 118-121). Their properties are
  `Propriedades.EspacoOcupadoConcatena`, `Propriedades.EspacoOcupadoLimites`,
  `Propriedades.HomogeneoOcupado` and `Propriedades.OcupanteDesconhecido`.
- `RecintosZoo.Sobrecarga` and `RecintosZoo.EspacoDisponivel`
  (src/recintos-zoo.js:68-73, repeated at 122-127). Their properties are
  `Propriedades.SobrecargaSe` and `RecintosZoo.Descreve`.
- `RecintosZoo.Confortavel` (src/recintos-zoo.js:101-106). Its properties are
  `Propriedades.ViavelBiomaEOcupantes` and `Propriedades.OcupanteDesconhecido`.
- `RecintosZoo.Formata` (src/recintos-zoo.js:132). Its property is
  `Propriedades.FormataInjective`, and the `Teste.Linha…` lemmas give its
  output for the concrete lines.
- `Texto.Lower` (src/recintos-zoo.js:46). Its properties are
  `Texto.LowerChar` and `Texto.LowerOfLower`.
- `Texto.Join` inverts `Texto.Split` (src/recintos-zoo.js:38-39).
  `Texto.Offset` and `Texto.SeparadoresMaisAEsquerda` state where the pieces
  lie and that each separator taken out is the leftmost one.

## Model

| member | source | states |
|---|---|---|
| `Texto.LowerChar` | src/recintos-zoo.js:46 | an ASCII capital becomes the letter 32 code points higher; every other character is unchanged; the result is never a capital |
| `Texto.LowerOfLower` | src/recintos-zoo.js:46 | a string without capitals is its own lower-case form |
| `Texto.FirstFrom` | src/recintos-zoo.js:38-39 | the position found is an occurrence of the separator at or after the start; no earlier occurrence exists; "none" means there is no occurrence at all |
| `Texto.Split` | src/recintos-zoo.js:38-39 | `split` gives at least one piece; the pieces joined back with the separator give the original string; no piece contains the separator; no occurrence of the separator starts inside a piece, so separators are taken out leftmost first |
| `Texto.SplitWithoutSeparator` | src/recintos-zoo.js:38-39 | a string that does not contain the separator splits into itself alone |
| `Texto.SplitWithoutSeparatorStart` | src/recintos-zoo.js:38-39 | a string that lacks the separator's first character splits into itself alone |
| `Texto.SplitTwo` | src/recintos-zoo.js:38-39 | two pieces joined by the separator split back into exactly those two pieces, as for "savana e rio" |
| `Texto.DigitChar` | src/recintos-zoo.js:132 | a digit value maps to the decimal digit character with that value |
| `Texto.NatToString` | src/recintos-zoo.js:132 | a natural number renders as a non-empty string of decimal digits, with no leading zero, whose value is the number |
| `Texto.IntToString` | src/recintos-zoo.js:132 | a minus sign appears exactly for negative numbers, followed by the digits of the magnitude |
| `Texto.IntToStringChars` | src/recintos-zoo.js:132 | a rendered integer consists of digits and minus signs only |
| `Texto.IntToStringInjective` | src/recintos-zoo.js:132 | different integers render differently |
| `Propriedades.FormataInjective` | src/recintos-zoo.js:132 | two descriptions that render to the same line are equal: the line determines the enclosure number, the free space and the capacity |
| `RecintosZoo.Novo` | src/recintos-zoo.js:2-20 | the constructor's catalog has five enclosures and six species; all capacities and sizes are positive; species names are unique |
| `RecintosZoo.Find` | src/recintos-zoo.js:46 | `find` gives nothing exactly when no element satisfies the predicate; otherwise it gives the first element that does |
| `RecintosZoo.Busca` | src/recintos-zoo.js:63 | the exact-name lookup of an occupant gives a catalog species with that name, the first one in the catalog; it gives nothing exactly when no species has that name |
| `RecintosZoo.EspecieInformada` | src/recintos-zoo.js:46 | the requested species is the first catalog species whose lower-cased name equals the lower-cased request; nothing is found exactly when no species matches that way |
| `RecintosZoo.Filter` | src/recintos-zoo.js:55 | `filter` never returns more elements than it is given (the membership property is `Propriedades.FilterPertence`) |
| `RecintosZoo.Descreve` | src/recintos-zoo.js:117-132 | the described enclosure keeps its number and capacity; the reported free space plus the newcomers' space is the free space the filter tested; it is never negative for a viable enclosure |
| `Propriedades.AnimalInvalidoPrimeiro` | src/recintos-zoo.js:46-49 | the answer is "Animal inválido" exactly when no species matches the request ignoring case, whatever the quantity |
| `Propriedades.QuantidadeInvalidaSe` | src/recintos-zoo.js:50-52 | the answer is "Quantidade inválida" exactly when some species matches and the quantity is not positive |
| `Propriedades.SemRecintoViavelSe` | src/recintos-zoo.js:135-136 | for a valid request, the answer is "Não há recinto viável" exactly when no enclosure of the catalog is viable |
| `Propriedades.FormaDaResposta` | src/recintos-zoo.js:116-137 | an error answer carries one of the three messages; a success answer has one formatted line per description, at least one, and no more lines than enclosures |
| `Propriedades.FilterPertence` | src/recintos-zoo.js:55 | an element is in the filtered list exactly when it is in the input and satisfies the callback |
| `Propriedades.FilterConcatena` | src/recintos-zoo.js:55 | filtering a concatenation is the concatenation of the filtered parts, so the input order is kept |
| `Propriedades.FilterUm` | src/recintos-zoo.js:55 | a single element is kept exactly when it satisfies the callback |
| `Propriedades.FiltraPertence` | src/recintos-zoo.js:55-113 | an enclosure is among the filtered ones exactly when it is in the catalog and passes every check |
| `Propriedades.VagasSaoViaveis` | src/recintos-zoo.js:117-132 | every line of a successful answer describes a viable catalog enclosure; its free space is the tested space less the newcomers' space, and is not negative |
| `Propriedades.ViaveisSaoListados` | src/recintos-zoo.js:116-134 | every viable enclosure is described in the answer, so the answer is a success |
| `Propriedades.ViavelMonotono` | src/recintos-zoo.js:76-79 | for a species of non-negative size, an enclosure viable for some quantity is viable for every smaller positive quantity |
| `Propriedades.RespostaMonotona` | src/recintos-zoo.js:55-113 | in a valid catalog, an enclosure kept for quantity q is kept for every positive p ≤ q, and the answer for p is a success |
| `Propriedades.EspacoOcupadoConcatena` | src/recintos-zoo.js:62-65 | the occupied space of two groups of occupants is the sum of the groups' occupied spaces |
| `Propriedades.EspacoOcupadoLimites` | src/recintos-zoo.js:62-65 | in a valid catalog the occupied space is between 0 and the number of occupants times the largest size |
| `Propriedades.HomogeneoOcupado` | src/recintos-zoo.js:62-65 | occupants all of one known species take their number times its size |
| `Propriedades.HomogeneoEspecies` | src/recintos-zoo.js:23-34 | an occupied enclosure of one known species has no mixed species, and holds a carnivore exactly when that species is one |
| `Propriedades.TemEspecieDiferentesSe` | src/recintos-zoo.js:23-26 | the enclosure holds different species exactly when two of its occupants have different names |
| `Propriedades.SobrecargaSe` | src/recintos-zoo.js:70-73 | the extra unit is 0 or 1; it is 1 exactly when the request string is not an occupant and two occupants differ |
| `Propriedades.ViavelCarnivoros` | src/recintos-zoo.js:81-88 | in a viable enclosure, a carnivore's occupants all bear exactly the request string, and a non-carnivore meets no carnivorous occupant |
| `Propriedades.CarnivoroEmMaiusculas` | src/recintos-zoo.js:86-88 | a carnivore requested with a capital letter fits only an empty enclosure when the occupant names are lower case |
| `Propriedades.ViavelHipopotamo` | src/recintos-zoo.js:90-93 | for the exact request "hipopotamo", a viable enclosure is empty or has biome string "savana e rio" |
| `Propriedades.ViavelMacaco` | src/recintos-zoo.js:95-98 | for the exact request "macaco", a viable enclosure is never empty |
| `Propriedades.ViavelBiomaEOcupantes` | src/recintos-zoo.js:57-110 | a viable enclosure shares a biome tag with the species; every occupant is a known species that tolerates the enclosure and fits in the space left before placement; the newcomers fit in that space too |
| `Propriedades.OcupanteDesconhecido` | src/recintos-zoo.js:101-110 | an occupant missing from the catalog makes the enclosure unviable for every request, although it takes no space and is not counted as a carnivore |
| `Teste.RecintosDoCatalogo` | src/recintos-zoo.js:4-10 | the catalog's enclosures are, in order, the five of the constructor |
| `Teste.SplitSobreposto` | src/recintos-zoo.js:38-39 | `" e e ".split(" e ")` gives `["", "e "]`; the layout `[" e", ""]`, which would also join back, is not leftmost and is ruled out |
| `Teste.BiomasDosRecintos` | src/recintos-zoo.js:39 | the enclosures' biome tags are savana; floresta; savana and rio; rio; savana |
| `Teste.BiomasDasEspecies` | src/recintos-zoo.js:38 | the gazelle tolerates savana; the monkey tolerates savana or floresta; the hippopotamus tolerates savana or rio |
| `Teste.NomesMinusculos` | src/recintos-zoo.js:12-19 | every catalog species name is already lower case |
| `Teste.InformadaMacaco` | src/recintos-zoo.js:46 | "MACACO" and "macaco" both find the monkey |
| `Teste.InformadaHipopotamo` | src/recintos-zoo.js:46 | "HIPOPOTAMO" and "hipopotamo" both find the hippopotamus |
| `Teste.InformadaUnicornio` | src/recintos-zoo.js:46 | "UNICORNIO" finds no species |
| `Teste.ViavelHomogeneo` | src/recintos-zoo.js:55-113 | for a herbivore request and an occupied, comfortable enclosure of one herbivore species, viability comes down to biome, space and the hippopotamus rule |
| `Teste.ViavelVazio` | src/recintos-zoo.js:55-113 | for an empty enclosure, viability comes down to biome, capacity and the monkey rule |
| `Teste.Recinto5` | src/recintos-zoo.js:82-84 | no herbivore may join enclosure 5, which holds a lion |
| `Teste.MacacoRecinto1` | src/recintos-zoo.js:55-113 | monkeys fit enclosure 1 exactly when at most 7 are requested and the request is not "hipopotamo" |
| `Teste.MacacoRecinto2` | src/recintos-zoo.js:95-98 | monkeys fit the empty enclosure 2 exactly when at most 5 are requested and the request string is not exactly "macaco" |
| `Teste.MacacoRecinto3` | src/recintos-zoo.js:55-113 | monkeys fit enclosure 3 exactly when at most 5 are requested |
| `Teste.MacacoRecinto4` | src/recintos-zoo.js:57-59 | monkeys never fit the river enclosure 4 |
| `Teste.MacacoRecinto5` | src/recintos-zoo.js:82-84 | monkeys never fit the lion's enclosure 5 |
| `Teste.HipopotamoRecinto1` | src/recintos-zoo.js:90-93 | a hippopotamus request fits enclosure 1 exactly when 4·q ≤ 7 and the request string is not exactly "hipopotamo" |
| `Teste.HipopotamoRecinto2` | src/recintos-zoo.js:57-59 | hippopotamuses never fit the forest enclosure 2 |
| `Teste.HipopotamoRecinto3` | src/recintos-zoo.js:55-113 | hippopotamuses fit enclosure 3 exactly when 4·q ≤ 5 |
| `Teste.HipopotamoRecinto4` | src/recintos-zoo.js:55-113 | hippopotamuses fit the empty enclosure 4 exactly when 4·q ≤ 8 and the request is not "macaco" |
| `Teste.HipopotamoRecinto5` | src/recintos-zoo.js:82-84 | hippopotamuses never fit the lion's enclosure 5 |
| `Teste.LinhaRecinto1Livre5` | src/recintos-zoo.js:132 | enclosure 1 with 5 free of 10 renders as "Recinto 1 (espaço livre: 5 total: 10)" |
| `Teste.LinhaRecinto2Livre3` | src/recintos-zoo.js:132 | enclosure 2 with 3 free of 5 renders as "Recinto 2 (espaço livre: 3 total: 5)" |
| `Teste.LinhaRecinto3Livre3` | src/recintos-zoo.js:132 | enclosure 3 with 3 free of 7 renders as "Recinto 3 (espaço livre: 3 total: 7)" |
| `Teste.LinhaRecinto1Livre3` | src/recintos-zoo.js:132 | enclosure 1 with 3 free of 10 renders as "Recinto 1 (espaço livre: 3 total: 10)" |
| `Teste.LinhaRecinto3Livre1` | src/recintos-zoo.js:132 | enclosure 3 with 1 free of 7 renders as "Recinto 3 (espaço livre: 1 total: 7)" |
| `Teste.LinhaRecinto4Livre4` | src/recintos-zoo.js:132 | enclosure 4 with 4 free of 8 renders as "Recinto 4 (espaço livre: 4 total: 8)" |
| `Teste.LinhaRecinto1Livre0` | src/recintos-zoo.js:132 | enclosure 1 with 0 free of 10 renders as "Recinto 1 (espaço livre: 0 total: 10)" |
| `Teste.FiltroMacacoMaiusculo` | src/recintos-zoo.js:55-113 | "MACACO", 2 keeps enclosures 1, 2 and 3 |
| `Teste.AvaliaMacacoMaiusculo` | src/recintos-zoo.js:116-130 | "MACACO", 2 leaves 5 of 10, 3 of 5 and 3 of 7 free |
| `Teste.MacacoMaiusculo` | src/teste.js:6 | `analisaRecintos('MACACO', 2)` lists enclosure 1 (5 free of 10), enclosure 2 (3 free of 5) and enclosure 3 (3 free of 7) |
| `Teste.FiltroMacacoMinusculo` | src/recintos-zoo.js:55-113 | "macaco", 2 keeps enclosures 1 and 3 |
| `Teste.AvaliaMacacoMinusculo` | src/recintos-zoo.js:116-130 | "macaco", 2 leaves 5 of 10 and 3 of 7 free |
| `Teste.MacacoMinusculo` | src/recintos-zoo.js:44-137 | `analisaRecintos('macaco', 2)` lists enclosures 1 and 3 only, because the monkey rule excludes the empty enclosure 2 |
| `Teste.FiltroHipopotamoMaiusculo` | src/recintos-zoo.js:55-113 | "HIPOPOTAMO", 1 keeps enclosures 1, 3 and 4 |
| `Teste.AvaliaHipopotamoMaiusculo` | src/recintos-zoo.js:116-130 | "HIPOPOTAMO", 1 leaves 3 of 10, 1 of 7 and 4 of 8 free |
| `Teste.HipopotamoMaiusculo` | src/recintos-zoo.js:44-137 | `analisaRecintos('HIPOPOTAMO', 1)` lists enclosures 1, 3 and 4, because the hippopotamus rule does not apply to the upper-case request |
| `Teste.FiltroHipopotamoMinusculo` | src/recintos-zoo.js:55-113 | "hipopotamo", 1 keeps enclosures 3 and 4 |
| `Teste.AvaliaHipopotamoMinusculo` | src/recintos-zoo.js:116-130 | "hipopotamo", 1 leaves 1 of 7 and 4 of 8 free |
| `Teste.HipopotamoMinusculo` | src/recintos-zoo.js:44-137 | `analisaRecintos('hipopotamo', 1)` lists enclosures 3 and 4 only |
| `Teste.FiltroMacacoSete` | src/recintos-zoo.js:55-113 | "macaco", 7 keeps enclosure 1 alone |
| `Teste.AvaliaMacacoSete` | src/recintos-zoo.js:116-130 | "macaco", 7 leaves enclosure 1 with 0 of 10 free |
| `Teste.MacacoSete` | src/recintos-zoo.js:101-106 | `analisaRecintos('macaco', 7)` lists enclosure 1 with 0 free; the occupants stay comfortable because their check uses the space before placement |
| `Teste.Unicornio` | src/teste.js:9 | `analisaRecintos('UNICORNIO', 1)` answers "Animal inválido" |

## Left out

- The `Number.isInteger` half of the quantity check (`src/recintos-zoo.js:50`)
  is not modelled. The quantity is a mathematical integer, so fractional,
  non-numeric and special floating-point quantities cannot be expressed.
- `Texto.Lower` models `toLowerCase` for ASCII letters only. Full Unicode case
  mapping is not modelled, and the catalog names need no more.
- Texto.LowerChar: states the ASCII mapping only; accented capitals
  (for example "Á") are left unchanged, whereas JavaScript would lower them.
- JavaScript numbers are modelled as unbounded integers. Rounding of very large
  sizes or quantities is not captured.
- Texto.IntToString: always renders plain decimal digits. JavaScript renders
  integers from 1e21 upward in exponent notation. Every number in an answer
  about the constructor's catalog is between 0 and 10.
- The class wrapper and the constructor's mutable fields are modelled as an
  immutable `Zoo` value, because no method writes them.
  `RecintosZoo.Novo` is that value.
- The ES module export (`src/recintos-zoo.js:142`) is not modelled.
- `src/teste.js` is modelled only by its two requests, stated as lemmas about
  their answers. Its `console.log` output is not modelled.
- RecintosZoo.Filter: its own contract gives only the length bound. Membership
  and order are stated by `Propriedades.FilterPertence`,
  `Propriedades.FilterConcatena` and `Propriedades.FilterUm`.
- Propriedades.ViavelMonotono: needs a species size that is not negative.
  For a negative size a larger quantity would need less space; the
  constructor's catalog has only positive sizes.
