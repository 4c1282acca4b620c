/**
 * The configuration screen: edits of the professional catalog and of the
 * demand table, each building a new map with one key replaced, added or
 * deleted, and the summary total of all required sessions.
 */
module Settings {
  import opened Wrappers
  import opened Domain
  import opened OrderedMaps
  import opened Demands

  // ---------------------------------------------------------------------------
  // The screen's state

  /** The "new professional" form `novoProfissional`. */
  datatype Form = Form(nome: string, especialidade: string, cor: string)

  /** The form as it starts and as it is reset. */
  const EmptyForm := Form("", "", "#8B5CF6")

  /**
   * `profissionaisEditaveis`, `necessidadesEditaveis`, `modoEdicao`,
   * `alteracoesPendentes`, `novoProfissional` and `mostrarFormularioNovo`.
   */
  datatype Config = Config(profissionais: Catalog, necessidades: Demand, modoEdicao: bool,
                           pendentes: bool, novo: Form, mostrarFormulario: bool)

  /** The state built from the incoming props, `profissionais || {}` and `necessidades || {}`. */
  function Initial(profs: Option<Catalog>, necs: Option<Demand>): (r: Config)
    ensures r.profissionais == (if profs.Some? then profs.value else map[])
    ensures r.necessidades == (if necs.Some? then necs.value else [])
    ensures !r.modoEdicao && !r.pendentes && !r.mostrarFormulario && r.novo == EmptyForm
  {
    Config(profs.GetOr(map[]), necs.GetOr([]), false, false, EmptyForm, false)
  }

  // ---------------------------------------------------------------------------
  // Catalog edits

  /**
   * `atualizarNomeProfissional`: only the name of `id` changes. The screen
   * calls it for the ids it lists from the catalog itself.
   */
  function Rename(s: Config, id: string, nome: string): (r: Config)
    requires id in s.profissionais
    ensures r.profissionais.Keys == s.profissionais.Keys
    ensures r.profissionais[id].nome == nome
    ensures r.profissionais[id].cor == s.profissionais[id].cor
    ensures r.profissionais[id].disponibilidade == s.profissionais[id].disponibilidade
    ensures forall i :: i in s.profissionais && i != id ==> r.profissionais[i] == s.profissionais[i]
    ensures r.necessidades == s.necessidades && r.pendentes
    ensures r.modoEdicao == s.modoEdicao && r.novo == s.novo && r.mostrarFormulario == s.mostrarFormulario
  {
    s.(profissionais := s.profissionais[id := s.profissionais[id].(nome := nome)], pendentes := true)
  }

  /** `atualizarCorProfissional`: only the colour of `id` changes. */
  function Recolour(s: Config, id: string, cor: string): (r: Config)
    requires id in s.profissionais
    ensures r.profissionais.Keys == s.profissionais.Keys
    ensures r.profissionais[id].cor == cor
    ensures r.profissionais[id].nome == s.profissionais[id].nome
    ensures r.profissionais[id].disponibilidade == s.profissionais[id].disponibilidade
    ensures forall i :: i in s.profissionais && i != id ==> r.profissionais[i] == s.profissionais[i]
    ensures r.necessidades == s.necessidades && r.pendentes
    ensures r.modoEdicao == s.modoEdicao && r.novo == s.novo && r.mostrarFormulario == s.mostrarFormulario
  {
    s.(profissionais := s.profissionais[id := s.profissionais[id].(cor := cor)], pendentes := true)
  }

  /** `removerProfissional`: exactly the key `id` goes, present or not. */
  function Remove(s: Config, id: string): (r: Config)
    ensures r.profissionais.Keys == s.profissionais.Keys - {id}
    ensures forall i :: i in r.profissionais ==> r.profissionais[i] == s.profissionais[i]
    ensures r.necessidades == s.necessidades && r.pendentes
    ensures r.modoEdicao == s.modoEdicao && r.novo == s.novo && r.mostrarFormulario == s.mostrarFormulario
  {
    s.(profissionais := s.profissionais - {id}, pendentes := true)
  }

  // ---------------------------------------------------------------------------
  // The id of a new professional

  /** The ASCII characters matched by `\s`: space, tab, line feed, vertical tab, form feed, carriage return. */
  predicate IsSpace(c: char) {
    c == ' ' || 9 <= c as int <= 13
  }

  predicate IsUpper(c: char) {
    'A' <= c <= 'Z'
  }

  /** `toLowerCase` on one ASCII character. */
  function Lower(c: char): (r: char)
    ensures !IsUpper(r)
    ensures IsSpace(r) <==> IsSpace(c)
    ensures !IsUpper(c) ==> r == c
    ensures IsUpper(c) ==> 'a' <= r <= 'z' && r as int - 'a' as int == c as int - 'A' as int
  {
    if IsUpper(c) then (c as int + 32) as char else c
  }

  /**
   * `especialidade.toLowerCase().replace(/\s+/g, '')`; lowering never makes
   * or unmakes whitespace, so the two steps are taken character by character.
   */
  function Clean(e: string): (r: string)
    ensures |r| <= |e|
    ensures forall i :: 0 <= i < |r| ==> !IsSpace(r[i]) && !IsUpper(r[i])
  {
    if e == [] then []
    else (if IsSpace(e[0]) then [] else [Lower(e[0])]) + Clean(e[1..])
  }

  /** Cleaning one character: whitespace is dropped, anything else is lowered. */
  lemma CleanChar(c: char)
    ensures Clean([c]) == if IsSpace(c) then [] else [Lower(c)]
  {
    assert [c][1..] == [];
  }

  /** Cleaning works character by character: the cleaning of a concatenation is the concatenation of the cleanings. */
  lemma {:induction false} CleanAppend(a: string, b: string)
    ensures Clean(a + b) == Clean(a) + Clean(b)
  {
    if a != [] {
      assert (a + b)[0] == a[0] && (a + b)[1..] == a[1..] + b;
      CleanAppend(a[1..], b);
    } else {
      assert a + b == b;
    }
  }

  /** Cleaning is idempotent: a cleaned specialty has nothing left to lower or strip. */
  lemma {:induction false} CleanIdempotent(e: string)
    ensures Clean(Clean(e)) == Clean(e)
  {
    CleanClean(Clean(e));
  }

  /** A string with no whitespace and no capital letter is its own cleaning. */
  lemma {:induction false} CleanClean(e: string)
    requires forall i :: 0 <= i < |e| ==> !IsSpace(e[i]) && !IsUpper(e[i])
    ensures Clean(e) == e
  {
    if e != [] {
      CleanClean(e[1..]);
      assert e == [e[0]] + e[1..];
    }
  }

  function DigitChar(n: nat): (c: char)
    requires n < 10
    ensures '0' <= c <= '9' && c as int - '0' as int == n
  {
    ('0' as int + n) as char
  }

  /** `String(Date.now())`: the decimal digits of a timestamp, most significant first. */
  function Digits(n: nat): (s: string)
    ensures 1 <= |s|
    ensures n >= 10 ==> 2 <= |s|
    ensures forall i :: 0 <= i < |s| ==> '0' <= s[i] <= '9'
  {
    if n < 10 then [DigitChar(n)] else Digits(n / 10) + [DigitChar(n % 10)]
  }

  /** The number a string of decimal digits denotes, most significant first. */
  function DecimalValue(s: string): nat
    requires forall i :: 0 <= i < |s| ==> '0' <= s[i] <= '9'
  {
    if s == [] then 0 else DecimalValue(s[..|s| - 1]) * 10 + (s[|s| - 1] as int - '0' as int)
  }

  /** The printed timestamp reads back as the timestamp, with no leading zero unless it is 0. */
  lemma {:induction false} DigitsValue(n: nat)
    ensures DecimalValue(Digits(n)) == n
    ensures Digits(n)[0] == '0' ==> n == 0
  {
    var s := Digits(n);
    if n >= 10 {
      assert s[..|s| - 1] == Digits(n / 10);
      assert s[0] == Digits(n / 10)[0];
      DigitsValue(n / 10);
    }
  }

  /** Different timestamps print differently. */
  lemma {:induction false} DigitsInjective(a: nat, b: nat)
    requires Digits(a) == Digits(b)
    ensures a == b
  {
    if a >= 10 && b >= 10 {
      var da, db := Digits(a), Digits(b);
      assert da[|da| - 1] == DigitChar(a % 10) && db[|db| - 1] == DigitChar(b % 10);
      assert da[..|da| - 1] == Digits(a / 10) && db[..|db| - 1] == Digits(b / 10);
      DigitsInjective(a / 10, b / 10);
    } else if a < 10 && b < 10 {
      assert Digits(a)[0] == DigitChar(a) && Digits(b)[0] == DigitChar(b);
    }
  }

  /** The new id: the cleaned specialty followed by the timestamp's digits. */
  function NewId(especialidade: string, timestamp: nat): string {
    Clean(especialidade) + Digits(timestamp)
  }

  /**
   * The id ends in the timestamp and starts with characters that are neither
   * whitespace nor capitals; two professionals of one specialty added at
   * different instants get different ids.
   */
  lemma NewIdShape(especialidade: string, t1: nat, t2: nat)
    ensures var id := NewId(especialidade, t1); var n := |Clean(especialidade)|;
      && id[..n] == Clean(especialidade) && id[n..] == Digits(t1)
      && (forall i :: 0 <= i < n ==> !IsSpace(id[i]) && !IsUpper(id[i]))
    ensures NewId(especialidade, t1) == NewId(especialidade, t2) ==> t1 == t2
  {
    var n := |Clean(especialidade)|;
    if NewId(especialidade, t1) == NewId(especialidade, t2) {
      assert NewId(especialidade, t1)[n..] == Digits(t1);
      assert NewId(especialidade, t2)[n..] == Digits(t2);
      DigitsInjective(t1, t2);
    }
  }

  /** Every time of every day, the availability of a new professional. */
  const FullWeek := Week(Horarios, Horarios, Horarios, Horarios, Horarios)

  lemma FullWeekEveryTime(d: Day, t: Time)
    ensures t in FullWeek.At(d)
  {
    HorariosListsEveryTime();
  }

  /**
   * `adicionarNovoProfissional` at instant `timestamp`: nothing changes when
   * the form's name or specialty is empty; otherwise the professional is
   * stored under its new id (replacing an entry with that id), the form is
   * reset and closed.
   */
  function Add(s: Config, timestamp: nat): (r: Config)
    ensures s.novo.nome == [] || s.novo.especialidade == [] ==> r == s
    ensures s.novo.nome != [] && s.novo.especialidade != [] ==>
      var id := NewId(s.novo.especialidade, timestamp);
      && r.profissionais.Keys == s.profissionais.Keys + {id}
      && r.profissionais[id].nome == s.novo.nome && r.profissionais[id].cor == s.novo.cor
      && (forall d :: r.profissionais[id].disponibilidade.At(d) == Horarios)
      && (forall i :: i in s.profissionais && i != id ==> r.profissionais[i] == s.profissionais[i])
      && r.necessidades == s.necessidades && r.pendentes && r.modoEdicao == s.modoEdicao
      && r.novo == EmptyForm && !r.mostrarFormulario
  {
    if s.novo.nome == [] || s.novo.especialidade == [] then s
    else
      var p := Professional(s.novo.nome, s.novo.cor, FullWeek);
      s.(profissionais := s.profissionais[NewId(s.novo.especialidade, timestamp) := p],
         novo := EmptyForm, mostrarFormulario := false, pendentes := true)
  }

  // ---------------------------------------------------------------------------
  // Demand edits

  /** `parseInt(quantidade) || 0`, the parse given as its result (`None` for `NaN`). */
  function Parsed(parsed: Option<int>): (q: int)
    ensures parsed.None? ==> q == 0
    ensures parsed.Some? ==> q == parsed.value
  {
    if parsed.None? || parsed.value == 0 then 0 else parsed.value
  }

  /** `atualizarQuantidadeNecessidade`: the child's table with one type set, the child's entry replaced or appended. */
  function SetQuantity(s: Config, c: Child, tipo: string, parsed: Option<int>): (r: Config)
    ensures r.profissionais == s.profissionais && r.pendentes
    ensures r.modoEdicao == s.modoEdicao && r.novo == s.novo && r.mostrarFormulario == s.mostrarFormulario
  {
    var needs := Lookup(s.necessidades, c).GetOr([]);
    s.(necessidades := Update(s.necessidades, c, Update(needs, tipo, Parsed(parsed))), pendentes := true)
  }

  /** The edited quantity reads back as the parsed value, and every other (child, type) keeps its quantity. */
  lemma SetQuantitySpec(s: Config, c: Child, tipo: string, parsed: Option<int>)
    ensures var r := SetQuantity(s, c, tipo, parsed);
      && Quantity(r.necessidades, c, tipo) == Parsed(parsed)
      && (forall c', t' :: (c', t') != (c, tipo) ==> Quantity(r.necessidades, c', t') == Quantity(s.necessidades, c', t'))
      && Keys(Lookup(r.necessidades, c).GetOr([])) ==
           (var ts := Keys(Lookup(s.necessidades, c).GetOr([])); if tipo in ts then ts else ts + [tipo])
  {
  }

  /** A table without repeated children or types stays so. */
  lemma SetQuantityUnique(s: Config, c: Child, tipo: string, parsed: Option<int>)
    requires UniqueKeys(s.necessidades)
    requires UniqueKeys(Lookup(s.necessidades, c).GetOr([]))
    ensures var r := SetQuantity(s, c, tipo, parsed);
      UniqueKeys(r.necessidades) && UniqueKeys(Lookup(r.necessidades, c).GetOr([]))
  {
    var needs := Lookup(s.necessidades, c).GetOr([]);
    UpdateKeepsUnique(needs, tipo, Parsed(parsed));
    UpdateKeepsUnique(s.necessidades, c, Update(needs, tipo, Parsed(parsed)));
  }

  // ---------------------------------------------------------------------------
  // Saving, cancelling, the summary

  /** What `salvarAlteracoes` hands to `onProfissionaisChange` and `onNecessidadesChange`, and the state after. */
  datatype Saved = Saved(config: Config, profissionais: Catalog, necessidades: Demand)

  /** `salvarAlteracoes`: both tables are handed on, and editing ends with nothing pending. */
  function Save(s: Config): (r: Saved)
    ensures r.profissionais == s.profissionais && r.necessidades == s.necessidades
    ensures r.config.profissionais == s.profissionais && r.config.necessidades == s.necessidades
    ensures !r.config.pendentes && !r.config.modoEdicao && !r.config.mostrarFormulario
    ensures r.config.novo == s.novo
  {
    Saved(s.(pendentes := false, modoEdicao := false, mostrarFormulario := false),
          s.profissionais, s.necessidades)
  }

  /** `cancelarEdicao`: both tables back to the props, the form reset, nothing pending. */
  function Cancel(s: Config, profs: Option<Catalog>, necs: Option<Demand>): (r: Config)
    ensures r.profissionais == (if profs.Some? then profs.value else map[])
    ensures r.necessidades == (if necs.Some? then necs.value else [])
    ensures !r.pendentes && !r.modoEdicao && !r.mostrarFormulario && r.novo == EmptyForm
  {
    Initial(profs, necs)
  }

  /** One child's quantities summed, `Object.values(necessidades[c] || {})`. */
  function ChildTotal(d: Demand, c: Child): int {
    NeedsSum(Lookup(d, c).GetOr([]))
  }

  /** "Total de Terapias": the children's totals, over `criancas`. */
  function SummaryTotal(d: Demand): int {
    ChildrenTotal(d, Criancas)
  }

  function ChildrenTotal(d: Demand, cs: seq<Child>): int {
    if cs == [] then 0 else ChildTotal(d, cs[0]) + ChildrenTotal(d, cs[1..])
  }

  /** A key not among the keys is not found. */
  lemma AbsentKey<K, V>(xs: Assoc<K, V>, k: K)
    requires k !in Keys(xs)
    ensures Lookup(xs, k) == None
  {
    LookupKeys(xs, k);
  }

  /** In a table without repeated children, the two children's totals add up to the whole table. */
  lemma {:induction false} ChildTotalsSum(d: Demand)
    requires UniqueKeys(d)
    ensures ChildTotal(d, Henrique) + ChildTotal(d, Thiago) == DemandSum(d)
  {
    if d != [] {
      var rest := d[1..];
      assert UniqueKeys(rest) by {
        forall a, b | 0 <= a < b < |rest| ensures rest[a].0 != rest[b].0 {
          assert rest[a] == d[a + 1] && rest[b] == d[b + 1];
        }
      }
      ChildTotalsSum(rest);
      assert d[0].0 !in Keys(rest) by {
        KeysIndex(rest);
        forall i | 0 <= i < |Keys(rest)| ensures Keys(rest)[i] != d[0].0 {
          assert Keys(rest)[i] == rest[i].0 == d[i + 1].0;
        }
      }
      AbsentKey(rest, d[0].0);
      if d[0].0 == Henrique {
        assert ChildTotal(d, Henrique) == NeedsSum(d[0].1) && ChildTotal(rest, Henrique) == 0;
        assert ChildTotal(d, Thiago) == ChildTotal(rest, Thiago);
      } else {
        assert ChildTotal(d, Thiago) == NeedsSum(d[0].1) && ChildTotal(rest, Thiago) == 0;
        assert ChildTotal(d, Henrique) == ChildTotal(rest, Henrique);
      }
    }
  }

  /** The summary is the two children's totals. */
  lemma SummaryBothChildren(d: Demand)
    ensures SummaryTotal(d) == ChildTotal(d, Henrique) + ChildTotal(d, Thiago)
  {
    assert Criancas[1..] == [Thiago] && [Thiago][1..] == [];
    assert ChildrenTotal(d, [Thiago]) == ChildTotal(d, Thiago) + ChildrenTotal(d, []);
  }

  /**
   * The summary shows exactly the number of sessions the engine will try to
   * place (its `atendimentosNecessarios`).
   */
  lemma SummaryIsDemandSum(d: Demand)
    requires UniqueKeys(d)
    ensures SummaryTotal(d) == DemandSum(d)
  {
    ChildTotalsSum(d);
    SummaryBothChildren(d);
  }

  /** Setting one quantity in a table without repeated types moves one child's total by the change. */
  lemma {:induction false} NeedsSumUpdate(s: Needs, t: string, q: int)
    requires UniqueKeys(s)
    ensures NeedsSum(Update(s, t, q)) == NeedsSum(s) - Lookup(s, t).GetOr(0) + q
  {
    if s != [] && s[0].0 != t {
      var rest := s[1..];
      assert UniqueKeys(rest) by {
        forall a, b | 0 <= a < b < |rest| ensures rest[a].0 != rest[b].0 {
          assert rest[a] == s[a + 1] && rest[b] == s[b + 1];
        }
      }
      NeedsSumUpdate(rest, t, q);
      assert Update(s, t, q) == [s[0]] + Update(rest, t, q);
      assert (Update(s, t, q))[1..] == Update(rest, t, q);
    } else if s != [] {
      assert Update(s, t, q)[1..] == s[1..];
    }
  }

  /** Each edit of a quantity moves the summary total by exactly the difference between the new and the old quantity. */
  lemma SetQuantityTotal(s: Config, c: Child, tipo: string, parsed: Option<int>)
    requires UniqueKeys(Lookup(s.necessidades, c).GetOr([]))
    ensures SummaryTotal(SetQuantity(s, c, tipo, parsed).necessidades) ==
            SummaryTotal(s.necessidades) - Quantity(s.necessidades, c, tipo) + Parsed(parsed)
  {
    var needs := Lookup(s.necessidades, c).GetOr([]);
    NeedsSumUpdate(needs, tipo, Parsed(parsed));
    var r := SetQuantity(s, c, tipo, parsed);
    SummaryBothChildren(s.necessidades);
    SummaryBothChildren(r.necessidades);
    assert Lookup(r.necessidades, c) == Some(Update(needs, tipo, Parsed(parsed)));
  }
}
