/** What the enclosure analysis guarantees, for every catalog and every
    request: the order of the input checks, the effect of the quantity, the
    space it reports, and the rules a viable enclosure obeys. */
module Propriedades {
  import opened Texto
  import opened RecintosZoo

  // ---------------------------------------------------------------------------
  // Input validation
  // ---------------------------------------------------------------------------

  /** The species is checked first: a name that matches no species, ignoring
      case, gives "Animal inválido" whatever the quantity, and that error comes
      from nothing else. */
  lemma AnimalInvalidoPrimeiro(zoo: Zoo, animal: string, quantidade: int)
    ensures AnalisaRecintos(zoo, animal, quantidade) == RespostaErro("Animal inválido")
        <==> forall i :: 0 <= i < |zoo.animais| ==> Lower(zoo.animais[i].especie) != Lower(animal)
  {
  }

  /** A known species with a quantity that is not positive gives "Quantidade
      inválida", and that error comes from nothing else. */
  lemma QuantidadeInvalidaSe(zoo: Zoo, animal: string, quantidade: int)
    ensures AnalisaRecintos(zoo, animal, quantidade) == RespostaErro("Quantidade inválida")
        <==> (exists i :: 0 <= i < |zoo.animais| && Lower(zoo.animais[i].especie) == Lower(animal)) && quantidade <= 0
  {
  }

  /** A valid request fails exactly when no enclosure of the catalog is viable. */
  lemma SemRecintoViavelSe(zoo: Zoo, animal: string, quantidade: int, info: Especie)
    requires EspecieInformada(zoo, animal) == Some(info) && quantidade > 0
    ensures AnalisaRecintos(zoo, animal, quantidade) == RespostaErro("Não há recinto viável")
        <==> forall i :: 0 <= i < |zoo.recintos| ==> !Viavel(zoo, info, animal, quantidade, zoo.recintos[i])
  {
    var vs := Filtra(zoo, info, animal, quantidade, zoo.recintos);
    forall i | 0 <= i < |zoo.recintos| && Viavel(zoo, info, animal, quantidade, zoo.recintos[i])
      ensures |vs| > 0
    {
      FiltraPertence(zoo, info, animal, quantidade, zoo.recintos, zoo.recintos[i]);
    }
    if |vs| > 0 {
      FiltraPertence(zoo, info, animal, quantidade, zoo.recintos, vs[0]);
    }
  }

  /** The returned object carries one of the three error messages, or one
      formatted line per described enclosure: at least one, and no more than
      the catalog has. */
  lemma FormaDaResposta(zoo: Zoo, animal: string, quantidade: int)
    ensures AnalisaRecintos(zoo, animal, quantidade).RespostaErro? ==>
      AnalisaRecintos(zoo, animal, quantidade).erro in {"Animal inválido", "Quantidade inválida", "Não há recinto viável"}
    ensures AnalisaRecintos(zoo, animal, quantidade).RespostaRecintos? ==>
      && Avalia(zoo, animal, quantidade).Sucesso?
      && var linhas := AnalisaRecintos(zoo, animal, quantidade).recintosViaveis;
      && var vagas := Avalia(zoo, animal, quantidade).vagas;
      && 0 < |linhas| == |vagas| <= |zoo.recintos|
      && forall k :: 0 <= k < |linhas| ==> linhas[k] == Formata(vagas[k])
  {
  }

  /** A line laid out as `p + a + m + b + t + c + e`, with the three fields
      free of the characters that open the fixed text after them, gives its
      fields back. */
  lemma TresCampos(p: string, m: string, t: string, e: string,
                   a: string, b: string, c: string, a2: string, b2: string, c2: string)
    requires |m| > 0 && |t| > 0 && |e| > 0
    requires m[0] !in a && m[0] !in a2 && t[0] !in b && t[0] !in b2 && e[0] !in c && e[0] !in c2
    requires p + a + m + b + t + c + e == p + a2 + m + b2 + t + c2 + e
    ensures a == a2 && b == b2 && c == c2
  {
    var s, s2 := p + a + m + b + t + c + e, p + a2 + m + b2 + t + c2 + e;
    assert s[|p|..] == a + (m + b + t + c + e);
    assert s2[|p|..] == a2 + (m + b2 + t + c2 + e);
    AteAMarca(a, m + b + t + c + e, a2, m + b2 + t + c2 + e, m[0]);
    assert (m + b + t + c + e)[|m|..] == b + (t + c + e);
    assert (m + b2 + t + c2 + e)[|m|..] == b2 + (t + c2 + e);
    AteAMarca(b, t + c + e, b2, t + c2 + e, t[0]);
    assert (t + c + e)[|t|..] == c + e;
    assert (t + c2 + e)[|t|..] == c2 + e;
    AteAMarca(c, e, c2, e, e[0]);
  }

  /** A rendered line gives back the enclosure number, the free space and the
      capacity it was rendered from: different descriptions never print alike. */
  lemma FormataInjective(u: Vaga, v: Vaga)
    requires Formata(u) == Formata(v)
    ensures u == v
  {
    SemEspacoNemParentese(u.numero);
    SemEspacoNemParentese(u.livre);
    SemEspacoNemParentese(u.total);
    SemEspacoNemParentese(v.numero);
    SemEspacoNemParentese(v.livre);
    SemEspacoNemParentese(v.total);
    TresCampos("Recinto ", " (espaço livre: ", " total: ", ")",
      IntToString(u.numero), IntToString(u.livre), IntToString(u.total),
      IntToString(v.numero), IntToString(v.livre), IntToString(v.total));
    IntToStringInjective(u.numero, v.numero);
    IntToStringInjective(u.livre, v.livre);
    IntToStringInjective(u.total, v.total);
  }

  /** A rendered number holds neither a space nor a closing parenthesis. */
  lemma SemEspacoNemParentese(n: int)
    ensures ' ' !in IntToString(n) && ')' !in IntToString(n)
  {
    IntToStringChars(n);
  }

  // ---------------------------------------------------------------------------
  // The answer lists exactly the viable enclosures, in catalog order
  // ---------------------------------------------------------------------------

  /** The filter keeps exactly the elements that satisfy its callback. */
  lemma {:induction false} FilterPertence<T>(s: seq<T>, p: T -> bool, x: T)
    ensures x in Filter(s, p) <==> x in s && p(x)
  {
    if s != [] {
      assert s == [s[0]] + s[1..];
      FilterPertence(s[1..], p, x);
    }
  }

  /** Filtering a concatenation filters each part, keeping their order. */
  lemma {:induction false} FilterConcatena<T>(a: seq<T>, b: seq<T>, p: T -> bool)
    ensures Filter(a + b, p) == Filter(a, p) + Filter(b, p)
  {
    if a == [] {
      assert a + b == b;
    } else {
      var ab := a + b;
      var cabeca := if p(a[0]) then [a[0]] else [];
      assert ab[0] == a[0] && ab[1..] == a[1..] + b;
      FilterConcatena(a[1..], b, p);
      assert Filter(ab, p) == cabeca + (Filter(a[1..], p) + Filter(b, p));
      assert Filter(a, p) == cabeca + Filter(a[1..], p);
    }
  }

  /** A single element is kept exactly when it satisfies the callback.
      Together with FilterConcatena this says the filter keeps the satisfying
      elements, each once, in their original order. */
  lemma FilterUm<T>(x: T, p: T -> bool)
    ensures Filter([x], p) == if p(x) then [x] else []
  {
    assert [x][1..] == [];
  }

  /** So the enclosures listed are exactly the viable ones. */
  lemma FiltraPertence(zoo: Zoo, info: Especie, animal: string, quantidade: int, rs: seq<Recinto>, x: Recinto)
    ensures x in Filtra(zoo, info, animal, quantidade, rs) <==> x in rs && Viavel(zoo, info, animal, quantidade, x)
  {
    FilterPertence(rs, Criterio(zoo, info, animal, quantidade), x);
  }

  /** Every line of a successful answer describes a viable enclosure of the
      catalog: its number and capacity, and as free space the space the filter
      tested less the space of the new animals, which is not negative. */
  lemma VagasSaoViaveis(zoo: Zoo, animal: string, quantidade: int, info: Especie, k: int)
    requires EspecieInformada(zoo, animal) == Some(info)
    requires Avalia(zoo, animal, quantidade).Sucesso? && 0 <= k < |Avalia(zoo, animal, quantidade).vagas|
    ensures exists r :: (r in zoo.recintos && Viavel(zoo, info, animal, quantidade, r)
      && Avalia(zoo, animal, quantidade).vagas[k]
         == Vaga(r.numero, EspacoDisponivel(zoo, r, animal) - info.tamanho * quantidade, r.tamanho))
    ensures Avalia(zoo, animal, quantidade).vagas[k].livre >= 0
  {
    var vs := Filtra(zoo, info, animal, quantidade, zoo.recintos);
    var r := vs[k];
    FiltraPertence(zoo, info, animal, quantidade, zoo.recintos, r);
    assert Avalia(zoo, animal, quantidade).vagas[k] == Descreve(zoo, info, animal, quantidade, r);
  }

  /** Every viable enclosure of the catalog appears in a successful answer. */
  lemma ViaveisSaoListados(zoo: Zoo, animal: string, quantidade: int, info: Especie, r: Recinto)
    requires EspecieInformada(zoo, animal) == Some(info) && quantidade > 0
    requires r in zoo.recintos && Viavel(zoo, info, animal, quantidade, r)
    ensures Avalia(zoo, animal, quantidade).Sucesso?
    ensures Descreve(zoo, info, animal, quantidade, r) in Avalia(zoo, animal, quantidade).vagas
  {
    var vs := Filtra(zoo, info, animal, quantidade, zoo.recintos);
    FiltraPertence(zoo, info, animal, quantidade, zoo.recintos, r);
    var k :| 0 <= k < |vs| && vs[k] == r;
    assert Avalia(zoo, animal, quantidade).vagas[k] == Descreve(zoo, info, animal, quantidade, r);
  }

  // ---------------------------------------------------------------------------
  // Quantity
  // ---------------------------------------------------------------------------

  /** Quantity enters only the space test, so viability can only be lost as
      the quantity grows: viable for `q` means viable for every smaller
      positive `p`, and not viable for `p` means not viable for any larger `q`. */
  lemma ViavelMonotono(zoo: Zoo, info: Especie, animal: string, p: int, q: int, r: Recinto)
    requires info.tamanho >= 0 && 0 < p <= q
    ensures Viavel(zoo, info, animal, q, r) ==> Viavel(zoo, info, animal, p, r)
  {
    assert info.tamanho * p <= info.tamanho * q by {
      assert info.tamanho * q == info.tamanho * p + info.tamanho * (q - p);
    }
  }

  /** In a valid catalog, lowering the quantity keeps every enclosure that was
      listed. */
  lemma RespostaMonotona(zoo: Zoo, animal: string, info: Especie, p: int, q: int, r: Recinto)
    requires Valido(zoo) && EspecieInformada(zoo, animal) == Some(info) && 0 < p <= q
    requires r in Filtra(zoo, info, animal, q, zoo.recintos)
    ensures r in Filtra(zoo, info, animal, p, zoo.recintos)
    ensures Avalia(zoo, animal, p).Sucesso?
  {
    var i :| 0 <= i < |zoo.animais| && zoo.animais[i] == info;
    FiltraPertence(zoo, info, animal, q, zoo.recintos, r);
    FiltraPertence(zoo, info, animal, p, zoo.recintos, r);
    ViavelMonotono(zoo, info, animal, p, q, r);
    ViaveisSaoListados(zoo, animal, p, info, r);
  }

  // ---------------------------------------------------------------------------
  // Space
  // ---------------------------------------------------------------------------

  /** The occupied space of two groups of occupants is the sum of theirs. */
  lemma {:induction false} EspacoOcupadoConcatena(zoo: Zoo, a: seq<string>, b: seq<string>)
    ensures EspacoOcupado(zoo, a + b) == EspacoOcupado(zoo, a) + EspacoOcupado(zoo, b)
  {
    if b == [] {
      assert a + b == a;
    } else {
      assert (a + b)[..|a + b| - 1] == a + b[..|b| - 1];
      assert (a + b)[|a + b| - 1] == b[|b| - 1];
      EspacoOcupadoConcatena(zoo, a, b[..|b| - 1]);
    }
  }

  /** In a valid catalog occupied space is never negative, and never more than
      the largest species size times the number of occupants. */
  lemma {:induction false} EspacoOcupadoLimites(zoo: Zoo, animais: seq<string>, maior: int)
    requires Valido(zoo) && 0 <= maior
    requires forall i :: 0 <= i < |zoo.animais| ==> zoo.animais[i].tamanho <= maior
    ensures 0 <= EspacoOcupado(zoo, animais) <= |animais| * maior
  {
    if animais != [] {
      var ultimo := animais[|animais| - 1];
      EspacoOcupadoLimites(zoo, animais[..|animais| - 1], maior);
      var t := TamanhoOcupante(zoo, ultimo);
      assert 0 <= t;
      if Busca(zoo, ultimo).Some? {
        assert t <= maior;
      }
      assert |animais| * maior == (|animais| - 1) * maior + maior;
    }
  }

  /** An enclosure whose occupants all belong to one known species `e` takes
      their number times `e`'s size. */
  lemma {:induction false} HomogeneoOcupado(zoo: Zoo, animais: seq<string>, e: Especie)
    requires Busca(zoo, e.especie) == Some(e)
    requires forall i :: 0 <= i < |animais| ==> animais[i] == e.especie
    ensures EspacoOcupado(zoo, animais) == |animais| * e.tamanho
  {
    if animais != [] {
      HomogeneoOcupado(zoo, animais[..|animais| - 1], e);
      assert |animais| * e.tamanho == (|animais| - 1) * e.tamanho + e.tamanho;
    }
  }

  /** Such an enclosure, when occupied, holds one species, and holds a
      carnivore exactly when `e` is one. */
  lemma HomogeneoEspecies(zoo: Zoo, r: Recinto, e: Especie)
    requires Busca(zoo, e.especie) == Some(e) && |r.animais| > 0
    requires forall i :: 0 <= i < |r.animais| ==> r.animais[i] == e.especie
    ensures !TemEspecieDiferentes(r)
    ensures TemCarnivoro(zoo, r) == e.carnivoro
  {
    TemEspecieDiferentesSe(r);
    assert EhCarnivoro(zoo, r.animais[0]) == e.carnivoro;
  }

  /** `TemEspecieDiferentes` holds exactly when two occupants have different
      names. */
  lemma TemEspecieDiferentesSe(r: Recinto)
    ensures TemEspecieDiferentes(r)
        <==> exists i, j :: 0 <= i < |r.animais| && 0 <= j < |r.animais| && r.animais[i] != r.animais[j]
  {
    var nomes := set a | a in r.animais;
    if TemEspecieDiferentes(r) {
      var x :| x in nomes;
      assert |nomes - {x}| == |nomes| - 1;
      var y :| y in nomes - {x};
      var i :| 0 <= i < |r.animais| && r.animais[i] == x;
      var j :| 0 <= j < |r.animais| && r.animais[j] == y;
    }
    if exists i, j :: 0 <= i < |r.animais| && 0 <= j < |r.animais| && r.animais[i] != r.animais[j] {
      var i, j :| 0 <= i < |r.animais| && 0 <= j < |r.animais| && r.animais[i] != r.animais[j];
      var par := {r.animais[i], r.animais[j]};
      assert par <= nomes;
      assert |nomes| == |par| + |nomes - par|;
    }
  }

  /** The extra unit is never charged when the enclosure holds a single
      species or the request string names one of its occupants. */
  lemma SobrecargaSe(r: Recinto, animal: string)
    ensures Sobrecarga(r, animal) == 1
        <==> (animal !in r.animais
          && exists i, j :: 0 <= i < |r.animais| && 0 <= j < |r.animais| && r.animais[i] != r.animais[j])
    ensures Sobrecarga(r, animal) == 0 || Sobrecarga(r, animal) == 1
  {
    TemEspecieDiferentesSe(r);
  }

  // ---------------------------------------------------------------------------
  // What a viable enclosure looks like
  // ---------------------------------------------------------------------------

  /** A carnivore is only placed with animals whose name is exactly the
      request string; any other species is never placed with a carnivore. */
  lemma ViavelCarnivoros(zoo: Zoo, info: Especie, animal: string, quantidade: int, r: Recinto)
    requires Viavel(zoo, info, animal, quantidade, r)
    ensures info.carnivoro ==> forall i :: 0 <= i < |r.animais| ==> r.animais[i] == animal
    ensures !info.carnivoro ==> forall i :: 0 <= i < |r.animais| ==> !EhCarnivoro(zoo, r.animais[i])
  {
  }

  /** Since the comparison uses the request string as given, a carnivore
      requested with an upper-case letter in its name is never placed with
      occupants whose names are all lower case: only empty enclosures remain. */
  lemma CarnivoroEmMaiusculas(zoo: Zoo, info: Especie, animal: string, quantidade: int, r: Recinto)
    requires info.carnivoro && Lower(animal) != animal
    requires forall i :: 0 <= i < |r.animais| ==> Lower(r.animais[i]) == r.animais[i]
    ensures Viavel(zoo, info, animal, quantidade, r) ==> r.animais == []
  {
  }

  /** The hippopotamus rule, for the exact request "hipopotamo": an occupied
      enclosure must have the biome string "savana e rio". */
  lemma ViavelHipopotamo(zoo: Zoo, info: Especie, quantidade: int, r: Recinto)
    requires Viavel(zoo, info, "hipopotamo", quantidade, r)
    ensures r.animais == [] || r.bioma == "savana e rio"
  {
  }

  /** The monkey rule, for the exact request "macaco": never an empty enclosure. */
  lemma ViavelMacaco(zoo: Zoo, info: Especie, quantidade: int, r: Recinto)
    requires Viavel(zoo, info, "macaco", quantidade, r)
    ensures r.animais != []
  {
  }

  /** A viable enclosure shares a biome with the species, every occupant's
      species is in the catalog and shares a biome with the enclosure, and the
      space before placement holds both the newcomers and each occupant's size. */
  lemma ViavelBiomaEOcupantes(zoo: Zoo, info: Especie, animal: string, quantidade: int, r: Recinto)
    requires Viavel(zoo, info, animal, quantidade, r)
    ensures exists b :: b in BiomasRecinto(r) && b in BiomasAnimal(info)
    ensures forall i :: 0 <= i < |r.animais| ==>
      Busca(zoo, r.animais[i]).Some?
      && BiomaCompativel(Busca(zoo, r.animais[i]).value, r)
      && Busca(zoo, r.animais[i]).value.tamanho <= EspacoDisponivel(zoo, r, animal)
    ensures info.tamanho * quantidade <= EspacoDisponivel(zoo, r, animal)
  {
  }

  /** An occupant whose name is missing from the catalog makes the enclosure
      unviable for every request, although it takes no space and is not
      counted as a carnivore. */
  lemma OcupanteDesconhecido(zoo: Zoo, info: Especie, animal: string, quantidade: int, r: Recinto, i: int)
    requires 0 <= i < |r.animais| && forall j :: 0 <= j < |zoo.animais| ==> zoo.animais[j].especie != r.animais[i]
    ensures !Viavel(zoo, info, animal, quantidade, r)
    ensures TamanhoOcupante(zoo, r.animais[i]) == 0 && !EhCarnivoro(zoo, r.animais[i])
  {
    assert !Confortavel(zoo, r, EspacoDisponivel(zoo, r, animal), r.animais[i]);
  }
}
