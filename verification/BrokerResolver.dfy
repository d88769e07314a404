/**
 From a broker's server name to the ordered list of addresses to try.
 */
module BrokerResolver {
  import opened Text

  /** `xs` with only the first occurrence of every element. */
  function KeepFirst(xs: seq<string>): seq<string> {
    if xs == [] then []
    else
      var init := xs[..|xs| - 1];
      if xs[|xs| - 1] in init then KeepFirst(init) else KeepFirst(init) + [xs[|xs| - 1]]
  }

  /** The items, stripped, without the empty ones. */
  function Clean(items: seq<string>): seq<string> {
    if items == [] then []
    else
      var init := Clean(items[..|items| - 1]);
      var item := Strip(items[|items| - 1]);
      if item == "" then init else init + [item]
  }

  function Flatten(lists: seq<seq<string>>): seq<string> {
    if lists == [] then [] else Flatten(lists[..|lists| - 1]) + lists[|lists| - 1]
  }

  /** A resolver's search answer, after JSON decoding. */
  datatype Server = Server(name: string, access: seq<string>)

  datatype Company = Unusable | Company(results: seq<Server>)

  datatype Answer = Failed | NotAList | Companies(companies: seq<Company>)

  predicate SameName(a: string, b: string) {
    Lower(Strip(a)) == Lower(Strip(b))
  }

  function ServerEndpoints(servers: seq<Server>, name: string): seq<string> {
    if servers == [] then []
    else
      var init, last := ServerEndpoints(servers[..|servers| - 1], name), servers[|servers| - 1];
      if SameName(last.name, name) then init + last.access else init
  }

  function CompanyEndpoints(companies: seq<Company>, name: string): seq<string> {
    if companies == [] then []
    else
      var init, last := CompanyEndpoints(companies[..|companies| - 1], name), companies[|companies| - 1];
      if last.Company? then init + ServerEndpoints(last.results, name) else init
  }

  /** Every endpoint the answer lists for the server, in order, duplicates and all. */
  function Endpoints(a: Answer, name: string): seq<string> {
    if a.Companies? then CompanyEndpoints(a.companies, name) else []
  }

  function AllEndpoints(answers: seq<Answer>, name: string): seq<string> {
    if answers == [] then []
    else AllEndpoints(answers[..|answers| - 1], name) + Endpoints(answers[|answers| - 1], name)
  }

  /** Names are the same if they differ in nothing but padding and the case of letters. */
  lemma SameNameIgnores(a: string, b: string)
    ensures SameName(a, b) <==> SameIgnoringCase(Strip(a), Strip(b))
  {
    LowerIgnoresCase(Strip(a), Strip(b));
  }

  /** Server by server, the endpoints of the matching ones follow each other. */
  lemma {:induction false} EndpointsInOrder(servers: seq<Server>, more: seq<Server>, server: Server, name: string)
    ensures ServerEndpoints(servers + more, name) == ServerEndpoints(servers, name) + ServerEndpoints(more, name)
    ensures ServerEndpoints([server], name)
         == if SameIgnoringCase(Strip(server.name), Strip(name)) then server.access else []
  {
    SameNameIgnores(server.name, name);
    assert [server][..0] == [];
    if more == [] {
      assert servers + more == servers;
    } else {
      assert (servers + more)[..|servers + more| - 1] == servers + more[..|more| - 1];
      EndpointsInOrder(servers, more[..|more| - 1], server, name);
    }
  }

  /** ... and so company by company, where one that is no record counts for nothing ... */
  lemma {:induction false} CompaniesInOrder(companies: seq<Company>, more: seq<Company>, results: seq<Server>, name: string)
    ensures CompanyEndpoints(companies + more, name) == CompanyEndpoints(companies, name) + CompanyEndpoints(more, name)
    ensures CompanyEndpoints([Unusable], name) == []
    ensures CompanyEndpoints([Company(results)], name) == ServerEndpoints(results, name)
  {
    assert [Unusable][..0] == [] && [Company(results)][..0] == [];
    if more == [] {
      assert companies + more == companies;
    } else {
      assert (companies + more)[..|companies + more| - 1] == companies + more[..|more| - 1];
      CompaniesInOrder(companies, more[..|more| - 1], results, name);
    }
  }

  /** ... and answer by answer, where only a list of companies counts. */
  lemma {:induction false} AnswersInOrder(answers: seq<Answer>, more: seq<Answer>, companies: seq<Company>, name: string)
    ensures AllEndpoints(answers + more, name) == AllEndpoints(answers, name) + AllEndpoints(more, name)
    ensures AllEndpoints([Failed], name) == [] && AllEndpoints([NotAList], name) == []
    ensures AllEndpoints([Companies(companies)], name) == CompanyEndpoints(companies, name)
  {
    assert [Failed][..0] == [] && [NotAList][..0] == [] && [Companies(companies)][..0] == [];
    if more == [] {
      assert answers + more == answers;
    } else {
      assert (answers + more)[..|answers + more| - 1] == answers + more[..|more| - 1];
      AnswersInOrder(answers, more[..|more| - 1], companies, name);
    }
  }

  lemma {:induction false} KeepFirstSame(xs: seq<string>, x: string)
    ensures x in KeepFirst(xs) <==> x in xs
  {
    if xs != [] {
      KeepFirstSame(xs[..|xs| - 1], x);
      assert xs == xs[..|xs| - 1] + [xs[|xs| - 1]];
    }
  }

  lemma KeepFirstSnoc(xs: seq<string>, x: string)
    ensures KeepFirst(xs + [x]) == if x in xs then KeepFirst(xs) else KeepFirst(xs) + [x]
  {
    assert (xs + [x])[..|xs|] == xs;
  }

  lemma {:induction false} CleanConcat(a: seq<string>, b: seq<string>)
    ensures Clean(a + b) == Clean(a) + Clean(b)
  {
    if b == [] {
      assert a + b == a;
    } else {
      var n := |b| - 1;
      var item := Strip(b[n]);
      assert (a + b)[..|a| + n] == a + b[..n];
      assert (a + b)[|a| + n] == b[n];
      CleanConcat(a, b[..n]);
      assert Clean(a + b) == if item == "" then Clean(a + b[..n]) else Clean(a + b[..n]) + [item];
    }
  }

  /** Append what is new among `items`, as both resolver loops do. */
  method AddNew(known: seq<string>, items: seq<string>, ghost seen: seq<string>) returns (out: seq<string>)
    requires known == KeepFirst(seen)
    ensures out == KeepFirst(seen + Clean(items))
  {
    out := known;
    assert seen + Clean(items[..0]) == seen;
    for n := 0 to |items|
      invariant out == KeepFirst(seen + Clean(items[..n]))
    {
      var item := Strip(items[n]);
      ghost var before := seen + Clean(items[..n]);
      assert items[..n + 1][..n] == items[..n];
      if item != "" {
        assert seen + Clean(items[..n + 1]) == before + [item];
        KeepFirstSnoc(before, item);
        KeepFirstSame(before, item);
        if item !in out {
          out := out + [item];
        }
      }
    }
    assert items[..|items|] == items;
  }

  /** `places` lists, in order, the first item of `items` for each of the texts `out`, once it is stripped. */
  ghost predicate FirstsAt(items: seq<string>, out: seq<string>, places: seq<int>) {
    && |places| == |out|
    && (forall i, j :: 0 <= i < j < |places| ==> places[i] < places[j])
    && (forall i :: 0 <= i < |out| ==> 0 <= places[i] < |items| && FirstAt(items, places[i]) && out[i] == Strip(items[places[i]]))
    && (forall k :: 0 <= k < |items| && FirstAt(items, k) ==> k in places)
  }

  /** Item `k` is not blank, and no earlier one is the same but for padding. */
  predicate FirstAt(items: seq<string>, k: int)
    requires 0 <= k < |items|
  {
    Strip(items[k]) != "" && forall j :: 0 <= j < k ==> Strip(items[j]) != Strip(items[k])
  }

  lemma {:induction false} CleanHas(items: seq<string>, x: string)
    ensures x in Clean(items) <==> x != "" && exists k :: 0 <= k < |items| && Strip(items[k]) == x
  {
    if items != [] {
      CleanHas(items[..|items| - 1], x);
    }
  }

  lemma {:induction false} FirstsBefore(items: seq<string>, more: string, out: seq<string>, places: seq<int>)
    requires FirstsAt(items, out, places)
    ensures forall i :: 0 <= i < |out| ==>
      0 <= places[i] < |items| && FirstAt(items + [more], places[i]) && out[i] == Strip((items + [more])[places[i]])
    ensures forall k :: 0 <= k < |items| && FirstAt(items + [more], k) ==> k in places
  {
    forall k | 0 <= k < |items| ensures FirstAt(items + [more], k) <==> FirstAt(items, k) {
      assert forall j :: 0 <= j <= k ==> (items + [more])[j] == items[j];
      assert forall j :: 0 <= j <= k ==> Strip(items[j]) == Strip((items + [more])[j]);
    }
  }

  lemma {:induction false} FirstsGrow(items: seq<string>, more: string, out: seq<string>, places: seq<int>)
    requires FirstsAt(items, out, places)
    ensures if FirstAt(items + [more], |items|) then FirstsAt(items + [more], out + [Strip(more)], places + [|items|])
            else FirstsAt(items + [more], out, places)
  {
    FirstsBefore(items, more, out, places);
    var n := |items|;
    if FirstAt(items + [more], n) {
      var places' := places + [n];
      forall k | 0 <= k < n + 1 && FirstAt(items + [more], k) ensures k in places' {
        assert places'[|places|] == n;
        assert k < n ==> k in places;
      }
    }
  }

  /** The candidates are the stripped items that are not blank, each where it comes first. */
  lemma {:induction false} CandidatesAreFirsts(items: seq<string>) returns (places: seq<int>)
    ensures FirstsAt(items, Candidates(items), places)
  {
    places := [];
    if items != [] {
      var n := |items| - 1;
      var init, item := items[..n], Strip(items[n]);
      assert items == init + [items[n]];
      places := CandidatesAreFirsts(init);
      FirstsGrow(init, items[n], Candidates(init), places);
      NewCandidate(init, items[n]);
      if FirstAt(items, n) {
        places := places + [n];
      }
    }
  }

  lemma {:induction false} NewCandidate(items: seq<string>, more: string)
    ensures Candidates(items + [more])
         == if FirstAt(items + [more], |items|) then Candidates(items) + [Strip(more)] else Candidates(items)
  {
    var item := Strip(more);
    CleanHas(items, item);
    assert (items + [more])[..|items|] == items;
    if item != "" {
      KeepFirstSnoc(Clean(items), item);
    }
    assert FirstAt(items + [more], |items|) <==> item != "" && item !in Clean(items);
  }

  /** What is left of raw endpoints once they are cleaned and de-duplicated. */
  function Candidates(raw: seq<string>): seq<string> {
    KeepFirst(Clean(raw))
  }

  method AddRaw(known: seq<string>, items: seq<string>, ghost raw: seq<string>) returns (out: seq<string>)
    requires known == Candidates(raw)
    ensures out == Candidates(raw + items)
  {
    CleanConcat(raw, items);
    out := AddNew(known, items, Clean(raw));
  }

  lemma Reassociate(a: seq<string>, b: seq<string>, c: seq<string>)
    ensures (a + b) + c == a + (b + c)
  {
  }

  lemma ServerEndpointsSnoc(servers: seq<Server>, name: string, r: nat)
    requires r < |servers|
    ensures ServerEndpoints(servers[..r + 1], name)
         == if SameName(servers[r].name, name) then ServerEndpoints(servers[..r], name) + servers[r].access
            else ServerEndpoints(servers[..r], name)
  {
    assert servers[..r + 1][..r] == servers[..r];
  }

  /** The part of one company. */
  method AddServers(known: seq<string>, servers: seq<Server>, name: string, ghost raw: seq<string>) returns (out: seq<string>)
    requires known == Candidates(raw)
    ensures out == Candidates(raw + ServerEndpoints(servers, name))
  {
    out := known;
    ghost var more, all := [], raw;
    for r := 0 to |servers|
      invariant more == ServerEndpoints(servers[..r], name)
      invariant all == raw + more
      invariant out == Candidates(all)
    {
      ServerEndpointsSnoc(servers, name, r);
      if SameName(servers[r].name, name) {
        out := AddRaw(out, servers[r].access, all);
        Reassociate(raw, more, servers[r].access);
        more, all := more + servers[r].access, all + servers[r].access;
      }
    }
    assert servers[..|servers|] == servers;
  }

  /** The endpoints one answer gives for the server, de-duplicated as they are read. */
  method ParseAccess(answer: Answer, name: string) returns (out: seq<string>)
    ensures out == Candidates(Endpoints(answer, name))
  {
    out := [];
    if !answer.Companies? {
      return;
    }
    for c := 0 to |answer.companies|
      invariant out == Candidates(CompanyEndpoints(answer.companies[..c], name))
    {
      var company := answer.companies[c];
      assert answer.companies[..c + 1][..c] == answer.companies[..c];
      if company.Company? {
        out := AddServers(out, company.results, name, CompanyEndpoints(answer.companies[..c], name));
      }
    }
    assert answer.companies[..|answer.companies|] == answer.companies;
  }

  /** The baked table, in file order: an exact name wins, else the first match ignoring case. */
  function TableAccess(name: string, table: seq<(string, seq<string>)>): seq<string> {
    if exists i :: 0 <= i < |table| && table[i].0 == name then ExactAccess(name, table) else LooseAccess(name, table)
  }

  function ExactAccess(name: string, table: seq<(string, seq<string>)>): seq<string> {
    if table == [] then [] else if table[0].0 == name then table[0].1 else ExactAccess(name, table[1..])
  }

  function LooseAccess(name: string, table: seq<(string, seq<string>)>): seq<string> {
    if table == [] then [] else if SameName(table[0].0, name) then table[0].1 else LooseAccess(name, table[1..])
  }

  /** The entry at `i` is the first exact match, or the first match ignoring case. */
  predicate FirstMatch(name: string, table: seq<(string, seq<string>)>, i: int, exact: bool) {
    && 0 <= i < |table|
    && (if exact then table[i].0 == name else SameName(table[i].0, name))
    && forall j :: 0 <= j < i ==> if exact then table[j].0 != name else !SameName(table[j].0, name)
  }

  lemma {:induction false} LooseAccessIsFirst(name: string, table: seq<(string, seq<string>)>)
    ensures (exists i :: FirstMatch(name, table, i, false) && LooseAccess(name, table) == table[i].1)
         || (LooseAccess(name, table) == [] && forall i :: 0 <= i < |table| ==> !SameName(table[i].0, name))
  {
    if table != [] {
      LooseAccessIsFirst(name, table[1..]);
      if SameName(table[0].0, name) {
        assert FirstMatch(name, table, 0, false);
      } else if i :| FirstMatch(name, table[1..], i, false) && LooseAccess(name, table[1..]) == table[1..][i].1 {
        assert FirstMatch(name, table, i + 1, false);
      }
    }
  }

  lemma {:induction false} ExactAccessIsFirst(name: string, table: seq<(string, seq<string>)>)
    requires exists i :: 0 <= i < |table| && table[i].0 == name
    ensures exists i :: FirstMatch(name, table, i, true) && ExactAccess(name, table) == table[i].1
  {
    if table[0].0 == name {
      assert FirstMatch(name, table, 0, true);
    } else {
      var k :| 0 <= k < |table| && table[k].0 == name;
      assert table[1..][k - 1].0 == name;
      ExactAccessIsFirst(name, table[1..]);
      var i :| FirstMatch(name, table[1..], i, true) && ExactAccess(name, table[1..]) == table[1..][i].1;
      assert FirstMatch(name, table, i + 1, true);
    }
  }

  /** An exact name beats every spelling variant before it; without one the first variant wins. */
  lemma {:induction false} TableAccessIsRight(name: string, table: seq<(string, seq<string>)>)
    ensures
      if exists i :: 0 <= i < |table| && table[i].0 == name
      then exists i :: FirstMatch(name, table, i, true) && TableAccess(name, table) == table[i].1
      else (exists i :: FirstMatch(name, table, i, false) && TableAccess(name, table) == table[i].1)
           || (TableAccess(name, table) == [] && forall i :: 0 <= i < |table| ==> !SameName(table[i].0, name))
  {
    if exists i :: 0 <= i < |table| && table[i].0 == name {
      ExactAccessIsFirst(name, table);
    } else {
      LooseAccessIsFirst(name, table);
    }
  }

  lemma AllEndpointsSnoc(answers: seq<Answer>, name: string, n: nat)
    requires n < |answers|
    ensures AllEndpoints(answers[..n + 1], name) == AllEndpoints(answers[..n], name) + Endpoints(answers[n], name)
  {
    assert answers[..n + 1][..n] == answers[..n];
  }

  /** Merge what one resolver answers. */
  method AddAnswer(known: seq<string>, answer: Answer, name: string, ghost raw: seq<string>) returns (out: seq<string>)
    requires known == Candidates(raw)
    ensures out == Candidates(raw + Endpoints(answer, name))
  {
    var access := ParseAccess(answer, name);
    out := AddNew(known, access, Clean(raw));
    MergingParsed(raw, Endpoints(answer, name));
  }

  /** Merge what each resolver answers, in order. */
  method AddAnswers(known: seq<string>, answers: seq<Answer>, name: string, ghost raw: seq<string>) returns (out: seq<string>)
    requires known == Candidates(raw)
    ensures out == Candidates(raw + AllEndpoints(answers, name))
  {
    out := known;
    ghost var more, all := [], raw;
    for n := 0 to |answers|
      invariant more == AllEndpoints(answers[..n], name)
      invariant all == raw + more
      invariant out == Candidates(all)
    {
      AllEndpointsSnoc(answers, name, n);
      out := AddAnswer(out, answers[n], name, all);
      Reassociate(raw, more, Endpoints(answers[n], name));
      more, all := more + Endpoints(answers[n], name), all + Endpoints(answers[n], name);
    }
    assert answers[..|answers|] == answers;
  }

  /** The addresses to try: an explicit one, or table, resolvers and finally the name itself. */
  method ConnectCandidates(address: string, serverName: string, table: seq<(string, seq<string>)>,
                           autoresolve: bool, answers: seq<Answer>)
    returns (out: seq<string>)
    ensures Strip(address) != "" ==> out == [Strip(address)]
    ensures Strip(address) == "" && Strip(serverName) == "" ==> out == []
    ensures Strip(address) == "" && Strip(serverName) != "" ==>
      var name := Strip(serverName);
      out == Candidates(TableAccess(name, table)
                        + (if autoresolve then AllEndpoints(answers, name) else [])
                        + [name])
  {
    var addr := Strip(address);
    if addr != "" {
      return [addr];
    }
    var name := Strip(serverName);
    if name == "" {
      return [];
    }
    var baked := TableAccess(name, table);
    ghost var seen := baked;
    assert [] + baked == baked && baked + [] == baked;
    out := AddRaw([], baked, []);
    if autoresolve {
      out := AddAnswers(out, answers, name, baked);
      seen := baked + AllEndpoints(answers, name);
    }
    out := AddRaw(out, [name], seen);
  }

  /** De-duplicating a part first does not show in the whole. */
  lemma {:induction false} InnerDedupChangesNothing(a: seq<string>, b: seq<string>)
    ensures KeepFirst(a + KeepFirst(b)) == KeepFirst(a + b)
  {
    if b == [] {
    } else {
      var n := |b| - 1;
      var init, x := b[..n], b[n];
      InnerDedupChangesNothing(a, init);
      assert a + b == (a + init) + [x];
      KeepFirstSnoc(a + init, x);
      KeepFirstSame(init, x);
      if x !in init {
        assert a + KeepFirst(b) == (a + KeepFirst(init)) + [x];
        KeepFirstSnoc(a + KeepFirst(init), x);
      }
    }
  }

  predicate Stripped(xs: seq<string>) {
    forall i :: 0 <= i < |xs| ==> xs[i] != "" && Strip(xs[i]) == xs[i]
  }

  lemma {:induction false} StrippedIsClean(xs: seq<string>)
    requires Stripped(xs)
    ensures Clean(xs) == xs
  {
    if xs != [] {
      StrippedIsClean(xs[..|xs| - 1]);
      assert xs == xs[..|xs| - 1] + [xs[|xs| - 1]];
    }
  }

  lemma {:induction false} CleanIsStripped(items: seq<string>)
    ensures Stripped(Clean(items))
  {
    if items != [] {
      CleanIsStripped(items[..|items| - 1]);
      StripTwice(items[|items| - 1]);
    }
  }

  /** A parsed list is already clean, so cleaning it again while merging does nothing. */
  lemma KeptIsClean(items: seq<string>)
    ensures Clean(Candidates(items)) == Candidates(items)
  {
    CleanIsStripped(items);
    KeepFirstStripped(Clean(items));
    StrippedIsClean(Candidates(items));
  }

  /** Merging a parsed list is merging the raw endpoints it came from. */
  lemma MergingParsed(seen: seq<string>, raw: seq<string>)
    ensures KeepFirst(Clean(seen) + Clean(Candidates(raw))) == Candidates(seen + raw)
  {
    CleanConcat(seen, raw);
    InnerDedupChangesNothing(Clean(seen), Clean(raw));
    KeptIsClean(raw);
  }

  predicate Distinct(xs: seq<string>) {
    forall i, j :: 0 <= i < j < |xs| ==> xs[i] != xs[j]
  }

  lemma {:induction false} KeepFirstIsUnique(xs: seq<string>)
    ensures Distinct(KeepFirst(xs))
  {
    if xs != [] {
      var init := xs[..|xs| - 1];
      KeepFirstIsUnique(init);
      KeepFirstSame(init, xs[|xs| - 1]);
    }
  }

  /** The name is always among the candidates, and last unless a source already listed it. */
  lemma NameIsCandidate(sources: seq<string>, name: string)
    requires name != "" && Strip(name) == name
    ensures var out := Candidates(sources + [name]);
      name in out && (name !in Clean(sources) ==> out[|out| - 1] == name)
  {
    CleanConcat(sources, [name]);
    StrippedIsClean([name]);
    KeepFirstSnoc(Clean(sources), name);
    KeepFirstSame(Clean(sources), name);
  }

  lemma KeepFirstStripped(xs: seq<string>)
    requires Stripped(xs)
    ensures Stripped(KeepFirst(xs))
  {
    var out := KeepFirst(xs);
    forall i | 0 <= i < |out| ensures out[i] != "" && Strip(out[i]) == out[i] {
      assert out[i] in out;
      KeepFirstSame(xs, out[i]);
    }
  }

  /** No candidate is listed twice, empty or padded. */
  lemma CandidatesAreUsable(sources: seq<string>)
    ensures Distinct(Candidates(sources)) && Stripped(Candidates(sources))
  {
    KeepFirstIsUnique(Clean(sources));
    CleanIsStripped(sources);
    KeepFirstStripped(Clean(sources));
  }
}
