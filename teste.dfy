/** Fixed requests against the constructor's catalog, worked out to their
    exact answers: the two calls of the demonstration script, and the requests
    that show where the species rules read the request string as given. */
module Teste {
  import opened Texto
  import opened RecintosZoo
  import opened Propriedades

  const Leao := Especie("leao", 3, "savana", true)
  const Macaco := Especie("macaco", 1, "savana ou floresta", false)
  const Gazela := Especie("gazela", 2, "savana", false)
  const Hipopotamo := Especie("hipopotamo", 4, "savana ou rio", false)

  const R1 := Recinto(1, "savana", 10, ["macaco", "macaco", "macaco"])
  const R2 := Recinto(2, "floresta", 5, [])
  const R3 := Recinto(3, "savana e rio", 7, ["gazela"])
  const R4 := Recinto(4, "rio", 8, [])
  const R5 := Recinto(5, "savana", 9, ["leao"])

  lemma RecintosDoCatalogo()
    ensures Novo().recintos == [R1, R2, R3, R4, R5]
  {
  }

  // ---------------------------------------------------------------------------
  // Biomes
  // ---------------------------------------------------------------------------

  /** The biome strings split into the tags they stand for. */
  lemma Savana(sep: string)
    requires sep == " e " || sep == " ou "
    ensures Split("savana", sep) == ["savana"]
  {
    SplitWithoutSeparatorStart("savana", sep);
  }

  lemma Floresta()
    ensures Split("floresta", " e ") == ["floresta"]
  {
    SplitWithoutSeparatorStart("floresta", " e ");
  }

  lemma Rio()
    ensures Split("rio", " e ") == ["rio"]
  {
    SplitWithoutSeparatorStart("rio", " e ");
  }

  lemma SavanaERio()
    ensures Split("savana e rio", " e ") == ["savana", "rio"]
  {
    assert "savana e rio" == "savana" + " e " + "rio";
    SplitTwo("savana", " e ", "rio");
  }

  lemma SavanaOuFloresta()
    ensures Split("savana ou floresta", " ou ") == ["savana", "floresta"]
  {
    assert "savana ou floresta" == "savana" + " ou " + "floresta";
    SplitTwo("savana", " ou ", "floresta");
  }

  lemma SavanaOuRio()
    ensures Split("savana ou rio", " ou ") == ["savana", "rio"]
  {
    assert "savana ou rio" == "savana" + " ou " + "rio";
    SplitTwo("savana", " ou ", "rio");
  }

  lemma BiomasDosRecintos()
    ensures BiomasRecinto(R1) == ["savana"] && BiomasRecinto(R5) == ["savana"]
    ensures BiomasRecinto(R2) == ["floresta"]
    ensures BiomasRecinto(R3) == ["savana", "rio"]
    ensures BiomasRecinto(R4) == ["rio"]
  {
    Savana(" e ");
    Floresta();
    Rio();
    SavanaERio();
  }

  lemma BiomasDasEspecies()
    ensures BiomasAnimal(Gazela) == ["savana"]
    ensures BiomasAnimal(Macaco) == ["savana", "floresta"]
    ensures BiomasAnimal(Hipopotamo) == ["savana", "rio"]
  {
    Savana(" ou ");
    SavanaOuFloresta();
    SavanaOuRio();
  }

  /** A separator that overlaps itself is taken out leftmost first, as
      `" e e ".split(" e ")` does. */
  lemma SplitSobreposto()
    ensures Split(" e e ", " e ") == ["", "e "]
    ensures !SeparadoresMaisAEsquerda(" e e ", " e ", [" e", ""])
  {
    assert OccursAt(" e e ", " e ", 0);
    assert Split("e ", " e ") == ["e "];
    assert " e e "[..0] == "" && " e e "[3..] == "e ";
    assert Offset([" e", ""], " e ", 0) == 0;
  }

  /** Compatibility read off the split biome lists. */
  lemma CompativelSe(e: Especie, r: Recinto, doRecinto: seq<string>, doAnimal: seq<string>)
    requires BiomasRecinto(r) == doRecinto && BiomasAnimal(e) == doAnimal
    ensures BiomaCompativel(e, r) <==> exists b :: b in doRecinto && b in doAnimal
  {
  }

  lemma BiomaMacacoRecinto1()
    ensures BiomaCompativel(Macaco, R1)
  {
    Savana(" e ");
    SavanaOuFloresta();
    CompativelSe(Macaco, R1, ["savana"], ["savana", "floresta"]);
    assert "savana" in ["savana"] && "savana" in ["savana", "floresta"];
  }

  lemma BiomaMacacoRecinto2()
    ensures BiomaCompativel(Macaco, R2)
  {
    Floresta();
    SavanaOuFloresta();
    CompativelSe(Macaco, R2, ["floresta"], ["savana", "floresta"]);
    assert "floresta" in ["floresta"] && "floresta" in ["savana", "floresta"];
  }

  lemma BiomaMacacoRecinto3()
    ensures BiomaCompativel(Macaco, R3)
  {
    SavanaERio();
    SavanaOuFloresta();
    CompativelSe(Macaco, R3, ["savana", "rio"], ["savana", "floresta"]);
    assert "savana" in ["savana", "rio"] && "savana" in ["savana", "floresta"];
  }

  lemma BiomaMacacoRecinto4()
    ensures !BiomaCompativel(Macaco, R4)
  {
    Rio();
    SavanaOuFloresta();
    CompativelSe(Macaco, R4, ["rio"], ["savana", "floresta"]);
  }

  lemma BiomaHipopotamoRecinto1()
    ensures BiomaCompativel(Hipopotamo, R1)
  {
    Savana(" e ");
    SavanaOuRio();
    CompativelSe(Hipopotamo, R1, ["savana"], ["savana", "rio"]);
    assert "savana" in ["savana"] && "savana" in ["savana", "rio"];
  }

  lemma BiomaHipopotamoRecinto2()
    ensures !BiomaCompativel(Hipopotamo, R2)
  {
    Floresta();
    SavanaOuRio();
    CompativelSe(Hipopotamo, R2, ["floresta"], ["savana", "rio"]);
  }

  lemma BiomaHipopotamoRecinto3()
    ensures BiomaCompativel(Hipopotamo, R3)
  {
    SavanaERio();
    SavanaOuRio();
    CompativelSe(Hipopotamo, R3, ["savana", "rio"], ["savana", "rio"]);
    assert "savana" in ["savana", "rio"] && "savana" in ["savana", "rio"];
  }

  lemma BiomaHipopotamoRecinto4()
    ensures BiomaCompativel(Hipopotamo, R4)
  {
    Rio();
    SavanaOuRio();
    CompativelSe(Hipopotamo, R4, ["rio"], ["savana", "rio"]);
    assert "rio" in ["rio"] && "rio" in ["savana", "rio"];
  }

  lemma BiomaGazelaRecinto3()
    ensures BiomaCompativel(Gazela, R3)
  {
    SavanaERio();
    Savana(" ou ");
    CompativelSe(Gazela, R3, ["savana", "rio"], ["savana"]);
    assert "savana" in ["savana", "rio"] && "savana" in ["savana"];
  }

  // ---------------------------------------------------------------------------
  // Lookups
  // ---------------------------------------------------------------------------

  lemma BuscaLeao()
    ensures Busca(Novo(), Leao.especie) == Some(Leao)
  {
    assert Novo().animais[0] == Leao;
  }

  lemma BuscaMacaco()
    ensures Busca(Novo(), Macaco.especie) == Some(Macaco)
  {
    assert Novo().animais[3] == Macaco;
  }

  lemma BuscaGazela()
    ensures Busca(Novo(), Gazela.especie) == Some(Gazela)
  {
    assert Novo().animais[4] == Gazela;
  }

  /** The catalog's species names are already lower case. */
  lemma NomesMinusculos()
    ensures forall i :: 0 <= i < |Novo().animais| ==> Lower(Novo().animais[i].especie) == Novo().animais[i].especie
  {
    LowerOfLower("leao");
    LowerOfLower("leopardo");
    LowerOfLower("crocodilo");
    LowerOfLower("macaco");
    LowerOfLower("gazela");
    LowerOfLower("hipopotamo");
  }

  /** "MACACO" and "macaco" both find the monkey. */
  lemma InformadaMacaco()
    ensures EspecieInformada(Novo(), "MACACO") == Some(Macaco)
    ensures EspecieInformada(Novo(), "macaco") == Some(Macaco)
  {
    NomesMinusculos();
    LowerOfLower("macaco");
    assert Lower("MACACO") == "macaco";
    assert Novo().animais[3] == Macaco;
  }

  /** "HIPOPOTAMO" and "hipopotamo" both find the hippopotamus. */
  lemma InformadaHipopotamo()
    ensures EspecieInformada(Novo(), "HIPOPOTAMO") == Some(Hipopotamo)
    ensures EspecieInformada(Novo(), "hipopotamo") == Some(Hipopotamo)
  {
    NomesMinusculos();
    LowerOfLower("hipopotamo");
    assert Lower("HIPOPOTAMO") == "hipopotamo";
    assert Novo().animais[5] == Hipopotamo;
  }

  /** "UNICORNIO" finds nothing: no catalog name starts with a "u". */
  lemma InformadaUnicornio()
    ensures EspecieInformada(Novo(), "UNICORNIO") == None
  {
    var animais := Novo().animais;
    assert Lower("UNICORNIO")[0] == 'u';
    forall i | 0 <= i < |animais| ensures Lower(animais[i].especie) != Lower("UNICORNIO") {
      var nome := animais[i].especie;
      assert nome[0] in "lcmgh";
      assert Lower(nome)[0] == LowerChar(nome[0]) == nome[0];
    }
  }

  // ---------------------------------------------------------------------------
  // The enclosures
  // ---------------------------------------------------------------------------

  /** For an occupied enclosure holding one herbivore species `e` that
      tolerates its biome and has `livre` units left, and a herbivore request,
      the decision comes down to the new animals' biome and space and the
      hippopotamus rule. */
  lemma ViavelHomogeneo(zoo: Zoo, info: Especie, animal: string, quantidade: int, r: Recinto, e: Especie, livre: int)
    requires Busca(zoo, e.especie) == Some(e) && !e.carnivoro && !info.carnivoro
    requires |r.animais| > 0 && forall i :: 0 <= i < |r.animais| ==> r.animais[i] == e.especie
    requires BiomaCompativel(e, r) && livre == r.tamanho - |r.animais| * e.tamanho && livre >= e.tamanho
    ensures Viavel(zoo, info, animal, quantidade, r) == (
      && BiomaCompativel(info, r)
      && livre >= info.tamanho * quantidade
      && !(animal == "hipopotamo" && r.bioma != "savana e rio"))
  {
    HomogeneoOcupado(zoo, r.animais, e);
    HomogeneoEspecies(zoo, r, e);
  }

  /** The space it has left before placement is `livre`, whatever is requested. */
  lemma EspacoHomogeneo(zoo: Zoo, animal: string, r: Recinto, e: Especie, livre: int)
    requires Busca(zoo, e.especie) == Some(e)
    requires |r.animais| > 0 && forall i :: 0 <= i < |r.animais| ==> r.animais[i] == e.especie
    requires livre == r.tamanho - |r.animais| * e.tamanho
    ensures EspacoDisponivel(zoo, r, animal) == livre
  {
    HomogeneoOcupado(zoo, r.animais, e);
    HomogeneoEspecies(zoo, r, e);
  }

  /** For an empty enclosure the decision comes down to the biomes, the space
      and the monkey rule. */
  lemma ViavelVazio(zoo: Zoo, info: Especie, animal: string, quantidade: int, r: Recinto)
    requires r.animais == []
    ensures Viavel(zoo, info, animal, quantidade, r) == (
      && BiomaCompativel(info, r)
      && r.tamanho >= info.tamanho * quantidade
      && animal != "macaco")
  {
    assert (set a | a in r.animais) == {};
  }

  /** Its space before placement is its capacity. */
  lemma EspacoVazio(zoo: Zoo, animal: string, r: Recinto)
    requires r.animais == []
    ensures EspacoDisponivel(zoo, r, animal) == r.tamanho
  {
    assert (set a | a in r.animais) == {};
  }

  /** Enclosure 1 holds three monkeys, enclosure 3 one gazelle, enclosure 5 one lion. */
  lemma OcupantesRecinto1()
    ensures |R1.animais| > 0 && forall i :: 0 <= i < |R1.animais| ==> R1.animais[i] == Macaco.especie
    ensures 7 == R1.tamanho - |R1.animais| * Macaco.tamanho && 7 >= Macaco.tamanho
  {
  }

  lemma OcupantesRecinto3()
    ensures |R3.animais| > 0 && forall i :: 0 <= i < |R3.animais| ==> R3.animais[i] == Gazela.especie
    ensures 5 == R3.tamanho - |R3.animais| * Gazela.tamanho && 5 >= Gazela.tamanho
  {
  }

  lemma OcupantesRecinto5()
    ensures |R5.animais| > 0 && forall i :: 0 <= i < |R5.animais| ==> R5.animais[i] == Leao.especie
  {
  }

  lemma EspacoRecinto1(animal: string)
    ensures EspacoDisponivel(Novo(), R1, animal) == 7
  {
    BuscaMacaco();
    OcupantesRecinto1();
    EspacoHomogeneo(Novo(), animal, R1, Macaco, 7);
  }

  lemma EspacoRecinto2(animal: string)
    ensures EspacoDisponivel(Novo(), R2, animal) == 5
  {
    EspacoVazio(Novo(), animal, R2);
  }

  lemma EspacoRecinto3(animal: string)
    ensures EspacoDisponivel(Novo(), R3, animal) == 5
  {
    BuscaGazela();
    OcupantesRecinto3();
    EspacoHomogeneo(Novo(), animal, R3, Gazela, 5);
  }

  lemma EspacoRecinto4(animal: string)
    ensures EspacoDisponivel(Novo(), R4, animal) == 8
  {
    EspacoVazio(Novo(), animal, R4);
  }

  /** A herbivore request for enclosure 1: 7 units left, monkeys tolerate the savanna. */
  lemma Recinto1(info: Especie, animal: string, quantidade: int)
    requires !info.carnivoro
    ensures Viavel(Novo(), info, animal, quantidade, R1) == (
      && BiomaCompativel(info, R1)
      && 7 >= info.tamanho * quantidade
      && !(animal == "hipopotamo" && R1.bioma != "savana e rio"))
  {
    BuscaMacaco();
    OcupantesRecinto1();
    BiomaMacacoRecinto1();
    ViavelHomogeneo(Novo(), info, animal, quantidade, R1, Macaco, 7);
  }

  /** A herbivore request for enclosure 3: 5 units left, gazelles tolerate it. */
  lemma Recinto3(info: Especie, animal: string, quantidade: int)
    requires !info.carnivoro
    ensures Viavel(Novo(), info, animal, quantidade, R3) == (
      && BiomaCompativel(info, R3)
      && 5 >= info.tamanho * quantidade
      && !(animal == "hipopotamo" && R3.bioma != "savana e rio"))
  {
    BuscaGazela();
    OcupantesRecinto3();
    BiomaGazelaRecinto3();
    ViavelHomogeneo(Novo(), info, animal, quantidade, R3, Gazela, 5);
  }

  /** Enclosure 5 holds a lion: no herbivore may join it. */
  lemma Recinto5(info: Especie, animal: string, quantidade: int)
    requires !info.carnivoro
    ensures !Viavel(Novo(), info, animal, quantidade, R5)
  {
    BuscaLeao();
    OcupantesRecinto5();
    HomogeneoEspecies(Novo(), R5, Leao);
  }

  // ---------------------------------------------------------------------------
  // From the filtered enclosures to the answer
  // ---------------------------------------------------------------------------

  /** Filtering five elements is deciding on each in turn. */
  lemma FilterCinco<T>(p: T -> bool, a: T, b: T, c: T, d: T, e: T)
    ensures Filter([a, b, c, d, e], p)
         == (if p(a) then [a] else []) + ((if p(b) then [b] else []) + ((if p(c) then [c] else [])
          + ((if p(d) then [d] else []) + (if p(e) then [e] else []))))
  {
    assert [a, b, c, d, e][1..] == [b, c, d, e];
    assert [b, c, d, e][1..] == [c, d, e];
    assert [c, d, e][1..] == [d, e];
    assert [d, e][1..] == [e];
    assert [e][1..] == [];
    assert Filter([d, e], p) == (if p(d) then [d] else []) + (if p(e) then [e] else []);
    assert Filter([c, d, e], p) == (if p(c) then [c] else []) + Filter([d, e], p);
    assert Filter([b, c, d, e], p) == (if p(b) then [b] else []) + Filter([c, d, e], p);
  }

  lemma FilterGuardaPrimeiro<T>(p: T -> bool, a: T, b: T, c: T, d: T, e: T)
    requires p(a) && !p(b) && !p(c) && !p(d) && !p(e)
    ensures Filter([a, b, c, d, e], p) == [a]
  {
    FilterCinco(p, a, b, c, d, e);
  }

  lemma FilterGuarda123<T>(p: T -> bool, a: T, b: T, c: T, d: T, e: T)
    requires p(a) && p(b) && p(c) && !p(d) && !p(e)
    ensures Filter([a, b, c, d, e], p) == [a, b, c]
  {
    FilterCinco(p, a, b, c, d, e);
  }

  lemma FilterGuarda13<T>(p: T -> bool, a: T, b: T, c: T, d: T, e: T)
    requires p(a) && !p(b) && p(c) && !p(d) && !p(e)
    ensures Filter([a, b, c, d, e], p) == [a, c]
  {
    FilterCinco(p, a, b, c, d, e);
  }

  lemma FilterGuarda134<T>(p: T -> bool, a: T, b: T, c: T, d: T, e: T)
    requires p(a) && !p(b) && p(c) && p(d) && !p(e)
    ensures Filter([a, b, c, d, e], p) == [a, c, d]
  {
    FilterCinco(p, a, b, c, d, e);
  }

  lemma FilterGuarda34<T>(p: T -> bool, a: T, b: T, c: T, d: T, e: T)
    requires !p(a) && !p(b) && p(c) && p(d) && !p(e)
    ensures Filter([a, b, c, d, e], p) == [c, d]
  {
    FilterCinco(p, a, b, c, d, e);
  }

  /** A valid request is answered with the descriptions of the kept enclosures. */
  lemma AvaliaUm(zoo: Zoo, animal: string, quantidade: int, info: Especie, a: Recinto)
    requires EspecieInformada(zoo, animal) == Some(info) && quantidade > 0
    requires Filtra(zoo, info, animal, quantidade, zoo.recintos) == [a]
    ensures Avalia(zoo, animal, quantidade) == Sucesso([Descreve(zoo, info, animal, quantidade, a)])
  {
  }

  lemma AvaliaDois(zoo: Zoo, animal: string, quantidade: int, info: Especie, a: Recinto, b: Recinto)
    requires EspecieInformada(zoo, animal) == Some(info) && quantidade > 0
    requires Filtra(zoo, info, animal, quantidade, zoo.recintos) == [a, b]
    ensures Avalia(zoo, animal, quantidade) == Sucesso([
      Descreve(zoo, info, animal, quantidade, a),
      Descreve(zoo, info, animal, quantidade, b)])
  {
  }

  lemma AvaliaTres(zoo: Zoo, animal: string, quantidade: int, info: Especie, a: Recinto, b: Recinto, c: Recinto)
    requires EspecieInformada(zoo, animal) == Some(info) && quantidade > 0
    requires Filtra(zoo, info, animal, quantidade, zoo.recintos) == [a, b, c]
    ensures Avalia(zoo, animal, quantidade) == Sucesso([
      Descreve(zoo, info, animal, quantidade, a),
      Descreve(zoo, info, animal, quantidade, b),
      Descreve(zoo, info, animal, quantidade, c)])
  {
    var vs := Avalia(zoo, animal, quantidade).vagas;
    assert |vs| == 3;
    assert vs[0] == Descreve(zoo, info, animal, quantidade, a);
    assert vs[1] == Descreve(zoo, info, animal, quantidade, b);
    assert vs[2] == Descreve(zoo, info, animal, quantidade, c);
  }

  /** A successful evaluation is rendered line by line. */
  lemma RespondeUm(u: Vaga)
    ensures Responde(Sucesso([u])) == RespostaRecintos([Formata(u)])
  {
  }

  lemma RespondeDois(u: Vaga, v: Vaga)
    ensures Responde(Sucesso([u, v])) == RespostaRecintos([Formata(u), Formata(v)])
  {
  }

  lemma RespondeTres(u: Vaga, v: Vaga, w: Vaga)
    ensures Responde(Sucesso([u, v, w])) == RespostaRecintos([Formata(u), Formata(v), Formata(w)])
  {
  }

  /** The description of an enclosure whose space left before placement is known. */
  lemma DescreveSe(zoo: Zoo, info: Especie, animal: string, quantidade: int, r: Recinto, disponivel: int)
    requires EspacoDisponivel(zoo, r, animal) == disponivel
    ensures Descreve(zoo, info, animal, quantidade, r) == Vaga(r.numero, disponivel - info.tamanho * quantidade, r.tamanho)
  {
  }

  /** A one-digit number prints as its digit. */
  lemma Digito(n: int)
    requires 0 <= n < 10
    ensures IntToString(n) == [DigitChar(n)]
  {
  }

  lemma Dez()
    ensures IntToString(10) == "10"
  {
    assert NatToString(10) == NatToString(1) + [DigitChar(0)];
  }

  lemma FormataSe(v: Vaga, numero: string, livre: string, total: string)
    requires IntToString(v.numero) == numero && IntToString(v.livre) == livre && IntToString(v.total) == total
    ensures Formata(v) == "Recinto " + numero + " (espaço livre: " + livre + " total: " + total + ")"
  {
  }

  lemma LinhaRecinto1Livre5()
    ensures Formata(Vaga(1, 5, 10)) == "Recinto 1 (espaço livre: 5 total: 10)"
  {
    assert Formata(Vaga(1, 5, 10)) == "Recinto " + "1" + " (espaço livre: " + "5" + " total: " + "10" + ")" by {
      assert IntToString(1) == "1" by { Digito(1); }
      assert IntToString(5) == "5" by { Digito(5); }
      assert IntToString(10) == "10" by { Dez(); }
      FormataSe(Vaga(1, 5, 10), "1", "5", "10");
    }
  }

  lemma LinhaRecinto2Livre3()
    ensures Formata(Vaga(2, 3, 5)) == "Recinto 2 (espaço livre: 3 total: 5)"
  {
    assert Formata(Vaga(2, 3, 5)) == "Recinto " + "2" + " (espaço livre: " + "3" + " total: " + "5" + ")" by {
      assert IntToString(2) == "2" by { Digito(2); }
      assert IntToString(3) == "3" by { Digito(3); }
      assert IntToString(5) == "5" by { Digito(5); }
      FormataSe(Vaga(2, 3, 5), "2", "3", "5");
    }
  }

  lemma LinhaRecinto3Livre3()
    ensures Formata(Vaga(3, 3, 7)) == "Recinto 3 (espaço livre: 3 total: 7)"
  {
    assert Formata(Vaga(3, 3, 7)) == "Recinto " + "3" + " (espaço livre: " + "3" + " total: " + "7" + ")" by {
      assert IntToString(3) == "3" by { Digito(3); }
      assert IntToString(7) == "7" by { Digito(7); }
      FormataSe(Vaga(3, 3, 7), "3", "3", "7");
    }
  }

  lemma LinhaRecinto1Livre3()
    ensures Formata(Vaga(1, 3, 10)) == "Recinto 1 (espaço livre: 3 total: 10)"
  {
    assert Formata(Vaga(1, 3, 10)) == "Recinto " + "1" + " (espaço livre: " + "3" + " total: " + "10" + ")" by {
      assert IntToString(1) == "1" by { Digito(1); }
      assert IntToString(3) == "3" by { Digito(3); }
      assert IntToString(10) == "10" by { Dez(); }
      FormataSe(Vaga(1, 3, 10), "1", "3", "10");
    }
  }

  lemma LinhaRecinto3Livre1()
    ensures Formata(Vaga(3, 1, 7)) == "Recinto 3 (espaço livre: 1 total: 7)"
  {
    assert Formata(Vaga(3, 1, 7)) == "Recinto " + "3" + " (espaço livre: " + "1" + " total: " + "7" + ")" by {
      assert IntToString(3) == "3" by { Digito(3); }
      assert IntToString(1) == "1" by { Digito(1); }
      assert IntToString(7) == "7" by { Digito(7); }
      FormataSe(Vaga(3, 1, 7), "3", "1", "7");
    }
  }

  lemma LinhaRecinto4Livre4()
    ensures Formata(Vaga(4, 4, 8)) == "Recinto 4 (espaço livre: 4 total: 8)"
  {
    assert Formata(Vaga(4, 4, 8)) == "Recinto " + "4" + " (espaço livre: " + "4" + " total: " + "8" + ")" by {
      assert IntToString(4) == "4" by { Digito(4); }
      assert IntToString(8) == "8" by { Digito(8); }
      FormataSe(Vaga(4, 4, 8), "4", "4", "8");
    }
  }

  lemma LinhaRecinto1Livre0()
    ensures Formata(Vaga(1, 0, 10)) == "Recinto 1 (espaço livre: 0 total: 10)"
  {
    assert Formata(Vaga(1, 0, 10)) == "Recinto " + "1" + " (espaço livre: " + "0" + " total: " + "10" + ")" by {
      assert IntToString(1) == "1" by { Digito(1); }
      assert IntToString(0) == "0" by { Digito(0); }
      assert IntToString(10) == "10" by { Dez(); }
      FormataSe(Vaga(1, 0, 10), "1", "0", "10");
    }
  }

  // ---------------------------------------------------------------------------
  // Monkey and hippopotamus requests, enclosure by enclosure
  // ---------------------------------------------------------------------------

  lemma MacacoRecinto1(animal: string, q: int)
    ensures Viavel(Novo(), Macaco, animal, q, R1) == (q <= 7 && animal != "hipopotamo")
  {
    Recinto1(Macaco, animal, q);
    BiomaMacacoRecinto1();
  }

  lemma MacacoRecinto2(animal: string, q: int)
    ensures Viavel(Novo(), Macaco, animal, q, R2) == (q <= 5 && animal != "macaco")
  {
    ViavelVazio(Novo(), Macaco, animal, q, R2);
    BiomaMacacoRecinto2();
  }

  lemma MacacoRecinto3(animal: string, q: int)
    ensures Viavel(Novo(), Macaco, animal, q, R3) == (q <= 5)
  {
    Recinto3(Macaco, animal, q);
    BiomaMacacoRecinto3();
  }

  lemma MacacoRecinto4(animal: string, q: int)
    ensures !Viavel(Novo(), Macaco, animal, q, R4)
  {
    ViavelVazio(Novo(), Macaco, animal, q, R4);
    BiomaMacacoRecinto4();
  }

  lemma MacacoRecinto5(animal: string, q: int)
    ensures !Viavel(Novo(), Macaco, animal, q, R5)
  {
    Recinto5(Macaco, animal, q);
  }

  lemma HipopotamoRecinto1(animal: string, q: int)
    ensures Viavel(Novo(), Hipopotamo, animal, q, R1) == (4 * q <= 7 && animal != "hipopotamo")
  {
    Recinto1(Hipopotamo, animal, q);
    BiomaHipopotamoRecinto1();
  }

  lemma HipopotamoRecinto2(animal: string, q: int)
    ensures !Viavel(Novo(), Hipopotamo, animal, q, R2)
  {
    ViavelVazio(Novo(), Hipopotamo, animal, q, R2);
    BiomaHipopotamoRecinto2();
  }

  lemma HipopotamoRecinto3(animal: string, q: int)
    ensures Viavel(Novo(), Hipopotamo, animal, q, R3) == (4 * q <= 5)
  {
    Recinto3(Hipopotamo, animal, q);
    BiomaHipopotamoRecinto3();
  }

  lemma HipopotamoRecinto4(animal: string, q: int)
    ensures Viavel(Novo(), Hipopotamo, animal, q, R4) == (4 * q <= 8 && animal != "macaco")
  {
    ViavelVazio(Novo(), Hipopotamo, animal, q, R4);
    BiomaHipopotamoRecinto4();
  }

  lemma HipopotamoRecinto5(animal: string, q: int)
    ensures !Viavel(Novo(), Hipopotamo, animal, q, R5)
  {
    Recinto5(Hipopotamo, animal, q);
  }

  // ---------------------------------------------------------------------------
  // Requests
  // ---------------------------------------------------------------------------

  lemma FiltroMacacoMaiusculo()
    ensures Filtra(Novo(), Macaco, "MACACO", 2, Novo().recintos) == [R1, R2, R3]
  {
    MacacoRecinto1("MACACO", 2);
    MacacoRecinto2("MACACO", 2);
    MacacoRecinto3("MACACO", 2);
    MacacoRecinto4("MACACO", 2);
    MacacoRecinto5("MACACO", 2);
    RecintosDoCatalogo();
    FilterGuarda123(Criterio(Novo(), Macaco, "MACACO", 2), R1, R2, R3, R4, R5);
  }

  lemma AvaliaMacacoMaiusculo()
    ensures Avalia(Novo(), "MACACO", 2) == Sucesso([Vaga(1, 5, 10), Vaga(2, 3, 5), Vaga(3, 3, 7)])
  {
    InformadaMacaco();
    FiltroMacacoMaiusculo();
    EspacoRecinto1("MACACO");
    DescreveSe(Novo(), Macaco, "MACACO", 2, R1, 7);
    EspacoRecinto2("MACACO");
    DescreveSe(Novo(), Macaco, "MACACO", 2, R2, 5);
    EspacoRecinto3("MACACO");
    DescreveSe(Novo(), Macaco, "MACACO", 2, R3, 5);
    RecintosDoCatalogo();
    AvaliaTres(Novo(), "MACACO", 2, Macaco, R1, R2, R3);
  }

  /** `analisaRecintos('MACACO', 2)`, the first call of the demonstration script.
      The lookup ignores case but the monkey rule does not, so the empty
      enclosure 2 is listed beside enclosures 1 and 3. */
  lemma MacacoMaiusculo()
    ensures AnalisaRecintos(Novo(), "MACACO", 2) == RespostaRecintos([
      "Recinto 1 (espaço livre: 5 total: 10)",
      "Recinto 2 (espaço livre: 3 total: 5)",
      "Recinto 3 (espaço livre: 3 total: 7)"])
  {
    AvaliaMacacoMaiusculo();
    LinhaRecinto1Livre5();
    LinhaRecinto2Livre3();
    LinhaRecinto3Livre3();
    RespondeTres(Vaga(1, 5, 10), Vaga(2, 3, 5), Vaga(3, 3, 7));
  }

  lemma FiltroMacacoMinusculo()
    ensures Filtra(Novo(), Macaco, "macaco", 2, Novo().recintos) == [R1, R3]
  {
    MacacoRecinto1("macaco", 2);
    MacacoRecinto2("macaco", 2);
    MacacoRecinto3("macaco", 2);
    MacacoRecinto4("macaco", 2);
    MacacoRecinto5("macaco", 2);
    RecintosDoCatalogo();
    FilterGuarda13(Criterio(Novo(), Macaco, "macaco", 2), R1, R2, R3, R4, R5);
  }

  lemma AvaliaMacacoMinusculo()
    ensures Avalia(Novo(), "macaco", 2) == Sucesso([Vaga(1, 5, 10), Vaga(3, 3, 7)])
  {
    InformadaMacaco();
    FiltroMacacoMinusculo();
    EspacoRecinto1("macaco");
    DescreveSe(Novo(), Macaco, "macaco", 2, R1, 7);
    EspacoRecinto3("macaco");
    DescreveSe(Novo(), Macaco, "macaco", 2, R3, 5);
    RecintosDoCatalogo();
    AvaliaDois(Novo(), "macaco", 2, Macaco, R1, R3);
  }

  /** The same request in lower case: now the monkey rule applies and the
      empty enclosure 2 is left out. */
  lemma MacacoMinusculo()
    ensures AnalisaRecintos(Novo(), "macaco", 2) == RespostaRecintos([
      "Recinto 1 (espaço livre: 5 total: 10)",
      "Recinto 3 (espaço livre: 3 total: 7)"])
  {
    AvaliaMacacoMinusculo();
    LinhaRecinto1Livre5();
    LinhaRecinto3Livre3();
    RespondeDois(Vaga(1, 5, 10), Vaga(3, 3, 7));
  }

  lemma FiltroHipopotamoMaiusculo()
    ensures Filtra(Novo(), Hipopotamo, "HIPOPOTAMO", 1, Novo().recintos) == [R1, R3, R4]
  {
    HipopotamoRecinto1("HIPOPOTAMO", 1);
    HipopotamoRecinto2("HIPOPOTAMO", 1);
    HipopotamoRecinto3("HIPOPOTAMO", 1);
    HipopotamoRecinto4("HIPOPOTAMO", 1);
    HipopotamoRecinto5("HIPOPOTAMO", 1);
    RecintosDoCatalogo();
    FilterGuarda134(Criterio(Novo(), Hipopotamo, "HIPOPOTAMO", 1), R1, R2, R3, R4, R5);
  }

  lemma AvaliaHipopotamoMaiusculo()
    ensures Avalia(Novo(), "HIPOPOTAMO", 1) == Sucesso([Vaga(1, 3, 10), Vaga(3, 1, 7), Vaga(4, 4, 8)])
  {
    InformadaHipopotamo();
    FiltroHipopotamoMaiusculo();
    EspacoRecinto1("HIPOPOTAMO");
    DescreveSe(Novo(), Hipopotamo, "HIPOPOTAMO", 1, R1, 7);
    EspacoRecinto3("HIPOPOTAMO");
    DescreveSe(Novo(), Hipopotamo, "HIPOPOTAMO", 1, R3, 5);
    EspacoRecinto4("HIPOPOTAMO");
    DescreveSe(Novo(), Hipopotamo, "HIPOPOTAMO", 1, R4, 8);
    RecintosDoCatalogo();
    AvaliaTres(Novo(), "HIPOPOTAMO", 1, Hipopotamo, R1, R3, R4);
  }

  /** An upper-case hippopotamus request skips the hippopotamus rule, so the
      occupied savanna enclosure 1 is listed. */
  lemma HipopotamoMaiusculo()
    ensures AnalisaRecintos(Novo(), "HIPOPOTAMO", 1) == RespostaRecintos([
      "Recinto 1 (espaço livre: 3 total: 10)",
      "Recinto 3 (espaço livre: 1 total: 7)",
      "Recinto 4 (espaço livre: 4 total: 8)"])
  {
    AvaliaHipopotamoMaiusculo();
    LinhaRecinto1Livre3();
    LinhaRecinto3Livre1();
    LinhaRecinto4Livre4();
    RespondeTres(Vaga(1, 3, 10), Vaga(3, 1, 7), Vaga(4, 4, 8));
  }

  lemma FiltroHipopotamoMinusculo()
    ensures Filtra(Novo(), Hipopotamo, "hipopotamo", 1, Novo().recintos) == [R3, R4]
  {
    HipopotamoRecinto1("hipopotamo", 1);
    HipopotamoRecinto2("hipopotamo", 1);
    HipopotamoRecinto3("hipopotamo", 1);
    HipopotamoRecinto4("hipopotamo", 1);
    HipopotamoRecinto5("hipopotamo", 1);
    RecintosDoCatalogo();
    FilterGuarda34(Criterio(Novo(), Hipopotamo, "hipopotamo", 1), R1, R2, R3, R4, R5);
  }

  lemma AvaliaHipopotamoMinusculo()
    ensures Avalia(Novo(), "hipopotamo", 1) == Sucesso([Vaga(3, 1, 7), Vaga(4, 4, 8)])
  {
    InformadaHipopotamo();
    FiltroHipopotamoMinusculo();
    EspacoRecinto3("hipopotamo");
    DescreveSe(Novo(), Hipopotamo, "hipopotamo", 1, R3, 5);
    EspacoRecinto4("hipopotamo");
    DescreveSe(Novo(), Hipopotamo, "hipopotamo", 1, R4, 8);
    RecintosDoCatalogo();
    AvaliaDois(Novo(), "hipopotamo", 1, Hipopotamo, R3, R4);
  }

  /** In lower case the hippopotamus rule keeps it out of the occupied
      enclosure 1, whose biome is not "savana e rio". */
  lemma HipopotamoMinusculo()
    ensures AnalisaRecintos(Novo(), "hipopotamo", 1) == RespostaRecintos([
      "Recinto 3 (espaço livre: 1 total: 7)",
      "Recinto 4 (espaço livre: 4 total: 8)"])
  {
    AvaliaHipopotamoMinusculo();
    LinhaRecinto3Livre1();
    LinhaRecinto4Livre4();
    RespondeDois(Vaga(3, 1, 7), Vaga(4, 4, 8));
  }

  lemma FiltroMacacoSete()
    ensures Filtra(Novo(), Macaco, "macaco", 7, Novo().recintos) == [R1]
  {
    MacacoRecinto1("macaco", 7);
    MacacoRecinto2("macaco", 7);
    MacacoRecinto3("macaco", 7);
    MacacoRecinto4("macaco", 7);
    MacacoRecinto5("macaco", 7);
    RecintosDoCatalogo();
    FilterGuardaPrimeiro(Criterio(Novo(), Macaco, "macaco", 7), R1, R2, R3, R4, R5);
  }

  lemma AvaliaMacacoSete()
    ensures Avalia(Novo(), "macaco", 7) == Sucesso([Vaga(1, 0, 10)])
  {
    InformadaMacaco();
    FiltroMacacoSete();
    EspacoRecinto1("macaco");
    DescreveSe(Novo(), Macaco, "macaco", 7, R1, 7);
    RecintosDoCatalogo();
    AvaliaUm(Novo(), "macaco", 7, Macaco, R1);
  }

  /** Seven monkeys fill enclosure 1 exactly: its three monkeys are still
      comfortable, because their check uses the space left before placement. */
  lemma MacacoSete()
    ensures AnalisaRecintos(Novo(), "macaco", 7) == RespostaRecintos([
      "Recinto 1 (espaço livre: 0 total: 10)"])
  {
    AvaliaMacacoSete();
    LinhaRecinto1Livre0();
    RespondeUm(Vaga(1, 0, 10));
  }

  /** `analisaRecintos('UNICORNIO', 1)`, the second call of the demonstration script. */
  lemma Unicornio()
    ensures AnalisaRecintos(Novo(), "UNICORNIO", 1) == RespostaErro("Animal inválido")
  {
    InformadaUnicornio();
  }
}
