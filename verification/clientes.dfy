/** The client list page's search box (`filteredClients`). */
module Clientes {
  import opened Seqs
  import opened Text
  import opened Schema

  /** Name and email match case-insensitively; the phone matches the term as typed. */
  predicate ClientMatches(c: Client, term: string) {
    || Includes(Lower(c.name), Lower(term))
    || Includes(Lower(c.email), Lower(term))
    || Includes(c.phone, term)
  }

  /** `filteredClients`: the clients the search keeps, in list order. */
  function FilteredClients(cs: seq<Client>, term: string): (r: seq<Client>)
    ensures forall x :: x in r <==> x in cs && ClientMatches(x, term)
    ensures forall x :: multiset(r)[x] == if ClientMatches(x, term) then multiset(cs)[x] else 0
    ensures IsSubsequence(r, cs)
    ensures (forall i :: 0 <= i < |cs| ==> ClientMatches(cs[i], term)) ==> r == cs
  {
    var keep := (c: Client) => ClientMatches(c, term);
    FilterFacts(cs, keep);
    FilterCounts(cs, keep);
    Filter(cs, keep)
  }

  /** An empty search box shows every client. */
  lemma EmptySearchShowsAll(cs: seq<Client>)
    ensures FilteredClients(cs, "") == cs
  {
    forall i | 0 <= i < |cs| ensures ClientMatches(cs[i], "") {
      IncludesEmpty(Lower(cs[i].name));
    }
  }

  /** A client is found by any piece of its name, in any case. */
  lemma FoundByNamePiece(cs: seq<Client>, i: nat, from: nat, to: nat)
    requires i < |cs| && from <= to <= |cs[i].name|
    ensures cs[i] in FilteredClients(cs, cs[i].name[from..to])
  {
    var name := cs[i].name;
    assert Lower(name)[from..to] == Lower(name[from..to]);
    IncludesIffOccurs(Lower(name), Lower(name[from..to]));
    assert OccursAt(Lower(name), Lower(name[from..to]), from);
  }

  /** The phone is matched as typed, without case folding: a client whose
      name and email do not contain the term is kept exactly when its phone
      contains the term verbatim. */
  lemma PhoneMatchedAsTyped(c: Client, term: string)
    requires !Includes(Lower(c.name), Lower(term)) && !Includes(Lower(c.email), Lower(term))
    ensures ClientMatches(c, term) <==> Includes(c.phone, term)
  {
  }

  /** Searching with a term or its lower-cased form finds the same clients
      whose phone does not decide the match. */
  lemma NameAndEmailIgnoreCase(c: Client, term: string)
    requires !Includes(c.phone, term) && !Includes(c.phone, Lower(term))
    ensures ClientMatches(c, term) == ClientMatches(c, Lower(term))
  {
    LowerIdempotent(term);
  }
}
