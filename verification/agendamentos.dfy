/** The appointments page: the status colour and the search-and-status
    filter over the appointments it lists. */
module Agendamentos {
  import opened Seqs
  import opened Text
  import opened Schema

  /** One row of the page's list. */
  datatype AppointmentRow = AppointmentRow(id: Id, cliente: string, telefone: string, servico: string,
                                           data: string, horario: string, status: string,
                                           observacoes: string)

  const DefaultColor: string := "bg-gray-100 text-gray-800"

  /** `getStatusColor`: green, yellow and red for the three known statuses, grey otherwise. */
  function GetStatusColor(status: string): (r: string)
    ensures r != DefaultColor <==> status in {"confirmado", "pendente", "cancelado"}
  {
    assert "bg-green-100 text-green-800"[5] != DefaultColor[5];
    match status
    case "confirmado" => "bg-green-100 text-green-800"
    case "pendente" => "bg-yellow-100 text-yellow-800"
    case "cancelado" => "bg-red-100 text-red-800"
    case _ => DefaultColor
  }

  /** The three known statuses are told apart by colour. */
  lemma StatusColorsDistinct()
    ensures GetStatusColor("confirmado") != GetStatusColor("pendente")
    ensures GetStatusColor("confirmado") != GetStatusColor("cancelado")
    ensures GetStatusColor("pendente") != GetStatusColor("cancelado")
  {
    assert GetStatusColor("confirmado")[3] == 'g';
    assert GetStatusColor("pendente")[3] == 'y';
    assert GetStatusColor("cancelado")[3] == 'r';
  }

  /** The search looks at the client and the service only, both case-insensitively. */
  predicate MatchesSearch(a: AppointmentRow, term: string) {
    Includes(Lower(a.cliente), Lower(term)) || Includes(Lower(a.servico), Lower(term))
  }

  const AllStatuses: string := "todos"

  predicate MatchesStatus(a: AppointmentRow, status: string) {
    status == AllStatuses || a.status == status
  }

  /** `filteredAgendamentos`. */
  function FilteredAppointments(rows: seq<AppointmentRow>, term: string, status: string): (r: seq<AppointmentRow>)
    ensures forall x :: x in r <==> x in rows && MatchesSearch(x, term) && MatchesStatus(x, status)
    ensures forall x :: multiset(r)[x] ==
              if MatchesSearch(x, term) && MatchesStatus(x, status) then multiset(rows)[x] else 0
    ensures IsSubsequence(r, rows)
    ensures (forall i :: 0 <= i < |rows| ==> MatchesSearch(rows[i], term) && MatchesStatus(rows[i], status)) ==> r == rows
  {
    var keep := (a: AppointmentRow) => MatchesSearch(a, term) && MatchesStatus(a, status);
    FilterFacts(rows, keep);
    FilterCounts(rows, keep);
    Filter(rows, keep)
  }

  /** "todos" keeps every row the search keeps; any other value keeps only rows with exactly that status. */
  lemma StatusFilter(rows: seq<AppointmentRow>, term: string, status: string)
    ensures status == AllStatuses ==>
              forall x :: x in FilteredAppointments(rows, term, status) <==> x in rows && MatchesSearch(x, term)
    ensures status != AllStatuses ==>
              forall x :: x in FilteredAppointments(rows, term, status) ==> x.status == status
  {
  }

  /** An empty search with "todos" lists every appointment. */
  lemma EmptySearchShowsAll(rows: seq<AppointmentRow>)
    ensures FilteredAppointments(rows, "", AllStatuses) == rows
  {
    forall i | 0 <= i < |rows| ensures MatchesSearch(rows[i], "") {
      IncludesEmpty(Lower(rows[i].cliente));
    }
  }

  /** The phone, date, time and notes take no part in the search. */
  lemma SearchIgnoresOtherFields(a: AppointmentRow, b: AppointmentRow, term: string)
    requires a.cliente == b.cliente && a.servico == b.servico
    ensures MatchesSearch(a, term) == MatchesSearch(b, term)
  {
  }
}
