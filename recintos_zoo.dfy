/** The enclosure-placement decision of the zoo: given a species name and a
    number of new animals, which enclosures of the catalog can take them.
    The catalog is built once and never changed, so every operation is a
    function of the catalog (`Zoo`) and its arguments. */
module RecintosZoo {
  import opened Texto

  /** An enclosure: its number, its biome string ("savana e rio" lists two
      biomes), its total capacity and the names of the animals it holds, one
      entry per individual. */
  datatype Recinto = Recinto(numero: int, bioma: string, tamanho: int, animais: seq<string>)

  /** A species: its name, the space one individual takes, its biome string
      ("savana ou floresta" lists two alternatives) and whether it eats meat. */
  datatype Especie = Especie(especie: string, tamanho: int, bioma: string, carnivoro: bool)

  /** The two tables the constructor builds. */
  datatype Zoo = Zoo(recintos: seq<Recinto>, animais: seq<Especie>)

  /** Sizes and capacities are positive and species names are unique. */
  ghost predicate Valido(zoo: Zoo) {
    && (forall i :: 0 <= i < |zoo.recintos| ==> zoo.recintos[i].tamanho > 0)
    && (forall i :: 0 <= i < |zoo.animais| ==> zoo.animais[i].tamanho > 0)
    && (forall i, j :: 0 <= i < j < |zoo.animais| ==> zoo.animais[i].especie != zoo.animais[j].especie)
  }

  /** The catalog the constructor builds. */
  function Novo(): (zoo: Zoo)
    ensures Valido(zoo)
    ensures |zoo.recintos| == 5 && |zoo.animais| == 6
  {
    Zoo(
      [ Recinto(1, "savana", 10, ["macaco", "macaco", "macaco"]),
        Recinto(2, "floresta", 5, []),
        Recinto(3, "savana e rio", 7, ["gazela"]),
        Recinto(4, "rio", 8, []),
        Recinto(5, "savana", 9, ["leao"]) ],
      [ Especie("leao", 3, "savana", true),
        Especie("leopardo", 2, "savana", true),
        Especie("crocodilo", 3, "rio", true),
        Especie("macaco", 1, "savana ou floresta", false),
        Especie("gazela", 2, "savana", false),
        Especie("hipopotamo", 4, "savana ou rio", false) ])
  }

  // ---------------------------------------------------------------------------
  // Looking up species
  // ---------------------------------------------------------------------------

  /** `s.find(p)`: the first element that satisfies `p`, if any. */
  function Find<T>(s: seq<T>, p: T -> bool): (r: Option<T>)
    ensures r.None? <==> forall i :: 0 <= i < |s| ==> !p(s[i])
    ensures r.Some? ==>
      exists i :: 0 <= i < |s| && s[i] == r.value && p(s[i]) && forall j :: 0 <= j < i ==> !p(s[j])
  {
    if s == [] then None
    else if p(s[0]) then Some(s[0])
    else
      var r := Find(s[1..], p);
      assert r.Some? ==> exists i :: 1 <= i < |s| && s[i] == r.value && p(s[i]) && forall j :: 0 <= j < i ==> !p(s[j]) by {
        if r.Some? {
          var i :| 0 <= i < |s[1..]| && s[1..][i] == r.value && p(s[1..][i]) && forall j :: 0 <= j < i ==> !p(s[1..][j]);
          assert s[i + 1] == r.value && p(s[i + 1]);
          forall j | 0 <= j < i + 1 ensures !p(s[j]) {
            if j > 0 { assert s[j] == s[1..][j - 1]; }
          }
        }
      }
      r
  }

  /** The exact-name lookup `this.animais.find(a => a.especie === nome)` used
      for the animals already in an enclosure. */
  function Busca(zoo: Zoo, nome: string): (r: Option<Especie>)
    ensures r.Some? ==> r.value in zoo.animais && r.value.especie == nome
    ensures r.None? <==> forall i :: 0 <= i < |zoo.animais| ==> zoo.animais[i].especie != nome
    ensures r.Some? ==> exists i :: (0 <= i < |zoo.animais| && zoo.animais[i] == r.value
      && forall j :: 0 <= j < i ==> zoo.animais[j].especie != nome)
  {
    Find(zoo.animais, (e: Especie) => e.especie == nome)
  }

  /** The lookup of the requested species, which alone ignores case: the first
      species whose lower-cased name equals the lower-cased request. */
  function EspecieInformada(zoo: Zoo, animal: string): (r: Option<Especie>)
    ensures r.Some? ==> r.value in zoo.animais && Lower(r.value.especie) == Lower(animal)
    ensures r.None? <==> forall i :: 0 <= i < |zoo.animais| ==> Lower(zoo.animais[i].especie) != Lower(animal)
    ensures r.Some? ==> exists i :: (0 <= i < |zoo.animais| && zoo.animais[i] == r.value
      && forall j :: 0 <= j < i ==> Lower(zoo.animais[j].especie) != Lower(animal))
  {
    Find(zoo.animais, (e: Especie) => Lower(e.especie) == Lower(animal))
  }

  // ---------------------------------------------------------------------------
  // Compatibility rules
  // ---------------------------------------------------------------------------

  /** More than one distinct name among the occupants. */
  function TemEspecieDiferentes(r: Recinto): bool {
    |set a | a in r.animais| > 1
  }

  /** An occupant name that resolves to a carnivorous species; a name missing
      from the catalog counts as not carnivorous. */
  function EhCarnivoro(zoo: Zoo, nome: string): bool {
    match Busca(zoo, nome)
    case Some(e) => e.carnivoro
    case None => false
  }

  /** Some occupant is a carnivore. */
  function TemCarnivoro(zoo: Zoo, r: Recinto): bool {
    exists i :: 0 <= i < |r.animais| && EhCarnivoro(zoo, r.animais[i])
  }

  /** The biomes a species tolerates: its biome string split on " ou ". */
  function BiomasAnimal(e: Especie): seq<string> {
    Split(e.bioma, " ou ")
  }

  /** The biomes of an enclosure: its biome string split on " e ". */
  function BiomasRecinto(r: Recinto): seq<string> {
    Split(r.bioma, " e ")
  }

  /** Some biome of the enclosure is one the species tolerates. */
  function BiomaCompativel(e: Especie, r: Recinto): bool {
    exists b :: b in BiomasRecinto(r) && b in BiomasAnimal(e)
  }

  // ---------------------------------------------------------------------------
  // Space accounting
  // ---------------------------------------------------------------------------

  /** The space one occupant takes: its species' size, or 0 when the name is
      missing from the catalog. */
  function TamanhoOcupante(zoo: Zoo, nome: string): int {
    match Busca(zoo, nome)
    case Some(e) => e.tamanho
    case None => 0
  }

  /** The occupied space: the sizes of the occupants summed left to right, as
      the `reduce` does. */
  function EspacoOcupado(zoo: Zoo, animais: seq<string>): int {
    if animais == [] then 0
    else EspacoOcupado(zoo, animais[..|animais| - 1]) + TamanhoOcupante(zoo, animais[|animais| - 1])
  }

  /** The extra unit a mixed enclosure costs, charged when the enclosure
      already holds more than one species and the request string is not among
      its occupants. */
  function Sobrecarga(r: Recinto, animal: string): int {
    if TemEspecieDiferentes(r) && animal !in r.animais then 1 else 0
  }

  /** The space left before the new animals are placed, as the filter computes it. */
  function EspacoDisponivel(zoo: Zoo, r: Recinto, animal: string): int {
    r.tamanho - EspacoOcupado(zoo, r.animais) - Sobrecarga(r, animal)
  }

  /** An existing occupant stays comfortable: its species is known, tolerates
      the enclosure's biome, and its size fits in the space left before the new
      animals are placed. */
  function Confortavel(zoo: Zoo, r: Recinto, disponivel: int, nome: string): bool {
    match Busca(zoo, nome)
    case None => false
    case Some(e) => BiomaCompativel(e, r) && disponivel >= e.tamanho
  }

  // ---------------------------------------------------------------------------
  // The per-enclosure decision
  // ---------------------------------------------------------------------------

  /** Whether `quantidade` animals of species `info`, requested under the name
      `animal`, can go into `r`. The checks run in the source's order; none has
      an effect, so their conjunction is the decision. The species-specific
      rules compare the request string as given, not lower-cased. */
  function Viavel(zoo: Zoo, info: Especie, animal: string, quantidade: int, r: Recinto): bool {
    var disponivel := EspacoDisponivel(zoo, r, animal);
    && BiomaCompativel(info, r)
    && disponivel >= info.tamanho * quantidade
    && !(TemCarnivoro(zoo, r) && !info.carnivoro)
    && !(info.carnivoro && exists i :: 0 <= i < |r.animais| && r.animais[i] != animal)
    && !(animal == "hipopotamo" && r.bioma != "savana e rio" && |r.animais| > 0)
    && !(animal == "macaco" && |r.animais| == 0)
    && forall i :: 0 <= i < |r.animais| ==> Confortavel(zoo, r, disponivel, r.animais[i])
  }

  /** `s.filter(p)`: the elements that satisfy `p`, in order. */
  function Filter<T>(s: seq<T>, p: T -> bool): (r: seq<T>)
    ensures |r| <= |s|
  {
    if s == [] then []
    else (if p(s[0]) then [s[0]] else []) + Filter(s[1..], p)
  }

  /** The callback the filter is given: the viability of one enclosure for
      this request. */
  function Criterio(zoo: Zoo, info: Especie, animal: string, quantidade: int): Recinto -> bool {
    r => Viavel(zoo, info, animal, quantidade, r)
  }

  /** `recintos.filter(...)`: the viable enclosures, in order. */
  function Filtra(zoo: Zoo, info: Especie, animal: string, quantidade: int, rs: seq<Recinto>): seq<Recinto> {
    Filter(rs, Criterio(zoo, info, animal, quantidade))
  }

  // ---------------------------------------------------------------------------
  // The answer
  // ---------------------------------------------------------------------------

  /** One line of the answer: the enclosure's number, its free space once the
      new animals are in, and its total capacity. */
  datatype Vaga = Vaga(numero: int, livre: int, total: int)

  /** The description of a viable enclosure. The free space is computed again
      the way the formatting step does it; it is the space the filter tested,
      less the space the new animals take, and it is never negative for a
      viable enclosure. */
  function Descreve(zoo: Zoo, info: Especie, animal: string, quantidade: int, r: Recinto): (v: Vaga)
    ensures v.numero == r.numero && v.total == r.tamanho
    ensures v.livre + info.tamanho * quantidade == EspacoDisponivel(zoo, r, animal)
    ensures Viavel(zoo, info, animal, quantidade, r) ==> v.livre >= 0
  {
    var ocupado := EspacoOcupado(zoo, r.animais);
    var disponivel := r.tamanho - ocupado;
    var disponivel := if TemEspecieDiferentes(r) && animal !in r.animais then disponivel - 1 else disponivel;
    Vaga(r.numero, disponivel - info.tamanho * quantidade, r.tamanho)
  }

  /** `Recinto N (espaço livre: F total: T)`. */
  function Formata(v: Vaga): string {
    "Recinto " + IntToString(v.numero) + " (espaço livre: " + IntToString(v.livre)
      + " total: " + IntToString(v.total) + ")"
  }

  datatype Erro = AnimalInvalido | QuantidadeInvalida | SemRecintoViavel

  function Mensagem(e: Erro): string {
    match e
    case AnimalInvalido => "Animal inválido"
    case QuantidadeInvalida => "Quantidade inválida"
    case SemRecintoViavel => "Não há recinto viável"
  }

  /** The outcome of a query before it is rendered as text. */
  datatype Avaliacao = Falha(erro: Erro) | Sucesso(vagas: seq<Vaga>)

  /** The decision: the species is looked up first, then the quantity is
      checked, then every enclosure is filtered and the viable ones described. */
  function Avalia(zoo: Zoo, animal: string, quantidade: int): Avaliacao {
    match EspecieInformada(zoo, animal)
    case None => Falha(AnimalInvalido)
    case Some(info) =>
      if quantidade <= 0 then Falha(QuantidadeInvalida)
      else
        var viaveis := Filtra(zoo, info, animal, quantidade, zoo.recintos);
        if |viaveis| > 0 then
          Sucesso(seq(|viaveis|, k requires 0 <= k < |viaveis| => Descreve(zoo, info, animal, quantidade, viaveis[k])))
        else Falha(SemRecintoViavel)
  }

  /** The object `analisaRecintos` returns: `{ erro }` or `{ recintosViaveis }`. */
  datatype Resposta = RespostaErro(erro: string) | RespostaRecintos(recintosViaveis: seq<string>)

  /** The outcome rendered as the returned object: the error message, or one
      formatted line per viable enclosure. */
  function Responde(a: Avaliacao): Resposta {
    match a
    case Falha(e) => RespostaErro(Mensagem(e))
    case Sucesso(vs) => RespostaRecintos(seq(|vs|, k requires 0 <= k < |vs| => Formata(vs[k])))
  }

  /** `analisaRecintos(animal, quantidade)`. */
  function AnalisaRecintos(zoo: Zoo, animal: string, quantidade: int): Resposta {
    Responde(Avalia(zoo, animal, quantidade))
  }
}
