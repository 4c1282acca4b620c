/**
 * The entities shared by the allocation engine, the editable grid and the
 * configuration screen: days, times, children, professionals, the sessions
 * stored in grid cells and the two kinds of conflict.
 */
module Domain {

  /** The five weekdays, in the order of the `dias` list. */
  datatype Day = Segunda | Terca | Quarta | Quinta | Sexta

  /** The four session times, in the order of the `horarios` list. */
  datatype Time = H0800 | H0900 | H1000 | H1100

  /** The two children of the reference configuration. */
  datatype Child = Henrique | Thiago

  const Dias: seq<Day> := [Segunda, Terca, Quarta, Quinta, Sexta]
  const Horarios: seq<Time> := [H0800, H0900, H1000, H1100]
  const Criancas: seq<Child> := [Henrique, Thiago]

  /** A professional's `disponibilidade`: the listed times of each day, in order. */
  datatype Week = Week(segunda: seq<Time>, terca: seq<Time>, quarta: seq<Time>,
                       quinta: seq<Time>, sexta: seq<Time>)
  {
    function At(d: Day): seq<Time> {
      match d
      case Segunda => segunda
      case Terca => terca
      case Quarta => quarta
      case Quinta => quinta
      case Sexta => sexta
    }
  }

  datatype Professional = Professional(nome: string, cor: string, disponibilidade: Week)

  /** The professional catalog, keyed by professional id (`terapiaOcupacional`, `at1`, ...). */
  type Catalog = map<string, Professional>

  /** One session as stored in a grid cell: service type, professional's name, colour. */
  datatype Appointment = Appointment(tipo: string, profissional: string, cor: string)

  /** The entries of the `conflitos` list: unmet demand and double booking. */
  datatype Conflict =
    | FaltaHorario(atendimento: string, profissional: string, crianca: Child,
                   necessario: int, alocado: int, faltante: int)
    | ConflitoProfissional(dia: Day, horario: Time, profissional: string, descricao: string)

  /** No value occurs twice in `xs`. */
  predicate NoDuplicates<T(==)>(xs: seq<T>) {
    forall i, j :: 0 <= i < j < |xs| ==> xs[i] != xs[j]
  }

  lemma DiasListsEveryDay()
    ensures NoDuplicates(Dias)
    ensures forall d: Day :: d in Dias
  {
    forall d: Day ensures d in Dias {
      match d
      case Segunda => assert Dias[0] == d;
      case Terca => assert Dias[1] == d;
      case Quarta => assert Dias[2] == d;
      case Quinta => assert Dias[3] == d;
      case Sexta => assert Dias[4] == d;
    }
  }

  lemma HorariosListsEveryTime()
    ensures NoDuplicates(Horarios)
    ensures forall t: Time :: t in Horarios
  {
    forall t: Time ensures t in Horarios {
      match t
      case H0800 => assert Horarios[0] == t;
      case H0900 => assert Horarios[1] == t;
      case H1000 => assert Horarios[2] == t;
      case H1100 => assert Horarios[3] == t;
    }
  }

  lemma CriancasListsEveryChild()
    ensures NoDuplicates(Criancas)
    ensures forall c: Child :: c in Criancas
  {
    forall c: Child ensures c in Criancas {
      match c
      case Henrique => assert Criancas[0] == c;
      case Thiago => assert Criancas[1] == c;
    }
  }
}
