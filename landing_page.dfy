/**
 * The landing page listing supported people. Fetched records are extended with a progress
 * percentage, an urgency level and the amount still missing; totals are computed for the
 * header; the list is narrowed by urgency and by a search; a donation form picks a preset or
 * a typed amount; and the transfer QR code embeds the person's id in its URL as it is.
 */
module LandingPage {
  import opened Wrappers
  import opened JsText
  import Ordering
  import DonationScreen

  /** A supported person as fetched. `name` and `location` are `None` when the record has
      no such field (the stored schema has no `location`); `progressPercentage` is whatever
      the stored record carries under that name, usually nothing. */
  datatype Person = Person(id: string, name: Option<string>, location: Option<string>, raised: Option<int>,
                           goal: Option<int>, donorCount: Option<int>,
                           progressPercentage: Option<real>)

  datatype Urgency = Urgent | NearlyComplete | New

  /** The filter value of each level. */
  function UrgencyName(u: Urgency): (r: string)
    ensures r in {"urgent", "nearly_complete", "new"}
  {
    match u
    case Urgent => "urgent"
    case NearlyComplete => "nearly_complete"
    case New => "new"
  }

  /** `(raised || 0) / (goal || 1) * 100`. */
  function Progress(p: Person): real {
    OrNum(p.raised, 0) as real / OrNum(p.goal, 1) as real * 100.0
  }

  /** `getUrgencyLevel`: below 20 percent urgent, above 80 nearly complete, otherwise new. */
  function GetUrgency(p: Person): Urgency {
    var progress := Progress(p);
    if progress < 20.0 then Urgent
    else if progress > 80.0 then NearlyComplete
    else New
  }

  lemma {:induction false} ScaledLess(x: real, g: real, t: real)
    requires g > 0.0
    ensures x / g * 100.0 < t <==> x * 100.0 < t * g
    ensures x / g * 100.0 > t <==> x * 100.0 > t * g
    ensures x / g * 100.0 >= t <==> x * 100.0 >= t * g
  {
    assert x / g * 100.0 == (x * 100.0) / g;
  }

  /** With a positive goal the level depends on the amounts alone: urgent below a fifth of
      the goal, nearly complete above four fifths, new between them, both ends included. */
  lemma {:induction false} UrgencyByAmounts(p: Person)
    requires p.goal.Some? && p.goal.value > 0
    ensures var r, g := OrNum(p.raised, 0), p.goal.value;
      (GetUrgency(p) == Urgent <==> 5 * r < g) &&
      (GetUrgency(p) == NearlyComplete <==> 5 * r > 4 * g) &&
      (GetUrgency(p) == New <==> g <= 5 * r <= 4 * g)
  {
    var r, g := OrNum(p.raised, 0), p.goal.value;
    ScaledLess(r as real, g as real, 20.0);
    ScaledLess(r as real, g as real, 80.0);
  }

  /** Exactly 20 and exactly 80 percent are `new`. */
  lemma {:induction false} UrgencyBoundaries()
    ensures GetUrgency(Person("1", Some("An"), Some("Huế"), Some(20), Some(100), None, None)) == New
    ensures GetUrgency(Person("1", Some("An"), Some("Huế"), Some(80), Some(100), None, None)) == New
    ensures GetUrgency(Person("1", Some("An"), Some("Huế"), Some(19), Some(100), None, None)) == Urgent
    ensures GetUrgency(Person("1", Some("An"), Some("Huế"), Some(81), Some(100), None, None)) == NearlyComplete
  {
    UrgencyByAmounts(Person("1", Some("An"), Some("Huế"), Some(20), Some(100), None, None));
    UrgencyByAmounts(Person("1", Some("An"), Some("Huế"), Some(80), Some(100), None, None));
    UrgencyByAmounts(Person("1", Some("An"), Some("Huế"), Some(19), Some(100), None, None));
    UrgencyByAmounts(Person("1", Some("An"), Some("Huế"), Some(81), Some(100), None, None));
  }

  /** A record of the processed list. */
  datatype Processed = Processed(person: Person, progress: real, urgency: Urgency, remaining: int)

  function ProcessOne(p: Person): Processed {
    Processed(p, Progress(p), GetUrgency(p), OrNum(p.goal, 0) - OrNum(p.raised, 0))
  }

  /** `data.map(...)`: one record per fetched person, in the same order, with the amount
      still missing. */
  function Process(data: seq<Person>): (r: seq<Processed>)
    ensures |r| == |data|
    ensures forall i :: 0 <= i < |data| ==> r[i] == ProcessOne(data[i])
  {
    seq(|data|, i requires 0 <= i < |data| => ProcessOne(data[i]))
  }

  /** Counting processed records by `q` is counting people by `p` when `q` reads what `p`
      does. */
  lemma {:induction false} CountProcessed(data: seq<Person>, q: Processed -> bool, p: Person -> bool)
    requires forall x :: q(ProcessOne(x)) == p(x)
    ensures |Ordering.Filter(Process(data), q)| == |Ordering.Filter(data, p)|
  {
    if data != [] {
      CountProcessed(data[1..], q, p);
      assert Process(data)[1..] == Process(data[1..]);
    }
  }

  // ---------------------------------------------------------------------------------------
  // Header totals
  // ---------------------------------------------------------------------------------------

  datatype Stats = Stats(totalSupported: nat, totalDonors: int, totalAmount: int, totalScholarships: nat)

  function DonorsOf(p: Person): int { OrNum(p.donorCount, 0) }
  function RaisedOf(p: Person): int { OrNum(p.raised, 0) }

  /** As written: `data.filter(person => person.progressPercentage >= 100).length` reads the
      fetched records, which carry no computed percentage. */
  function ScholarshipsAsWritten(data: seq<Person>): (n: nat)
    ensures n <= |data|
  {
    |Ordering.Filter(data, (p: Person) => p.progressPercentage.Some? && p.progressPercentage.value >= 100.0)|
  }

  /** A person who has reached the goal is not counted when the record has no percentage
      of its own, although the processed list shows 100 percent. */
  lemma {:induction false} ScholarshipsMissFunded()
    ensures var data := [Person("1", Some("An"), Some("Huế"), Some(100), Some(100), None, None)];
      Process(data)[0].progress == 100.0 && ScholarshipsAsWritten(data) == 0 &&
      TotalScholarships(data) == 1 &&
      StatsOf(data).totalScholarships == 0 && CorrectedStatsOf(data).totalScholarships == 1
  {
    var data := [Person("1", Some("An"), Some("Huế"), Some(100), Some(100), None, None)];
    assert Ordering.Filter(data, (p: Person) => p.progressPercentage.Some? && p.progressPercentage.value >= 100.0) == [];
    assert Process(data)[0] in Ordering.Filter(Process(data), (q: Processed) => q.progress >= 100.0);
  }

  /** The count the header means: processed records at or above 100 percent. */
  function TotalScholarships(data: seq<Person>): (n: nat)
    ensures n <= |data|
  {
    |Ordering.Filter(Process(data), (q: Processed) => q.progress >= 100.0)|
  }

  /** A person whose positive goal is reached. */
  predicate Funded(p: Person) {
    p.goal.Some? && p.goal.value > 0 && RaisedOf(p) >= p.goal.value
  }

  /** With positive goals, a person counts exactly when the amount raised reaches the goal,
      in the corrected count and so in the corrected header. */
  lemma {:induction false} ScholarshipsCountFunded(data: seq<Person>)
    requires forall i :: 0 <= i < |data| ==> data[i].goal.Some? && data[i].goal.value > 0
    ensures TotalScholarships(data) == |Ordering.Filter(data, Funded)|
    ensures CorrectedStatsOf(data).totalScholarships == |Ordering.Filter(data, Funded)|
  {
    var reached := (p: Person) => Progress(p) >= 100.0;
    forall i | 0 <= i < |data| ensures reached(data[i]) == Funded(data[i]) {
      ScaledLess(RaisedOf(data[i]) as real, data[i].goal.value as real, 100.0);
    }
    Ordering.SameFilter(data, reached, Funded);
    CountProcessed(data, (q: Processed) => q.progress >= 100.0, reached);
  }

  /** The header as written: the number of records, the donors and amounts summed with
      missing values as 0, and the scholarships counted on the fetched records' own
      `progressPercentage`. */
  function StatsOf(data: seq<Person>): (r: Stats)
    ensures r.totalSupported == |data| && r.totalScholarships <= r.totalSupported
  {
    Stats(|data|, Ordering.SumBy(data, DonorsOf), Ordering.SumBy(data, RaisedOf), ScholarshipsAsWritten(data))
  }

  /** Records as the server stores them carry no percentage, so the header as written
      always shows no scholarships. */
  lemma {:induction false} StoredRecordsShowNoScholarships(data: seq<Person>)
    requires forall i :: 0 <= i < |data| ==> data[i].progressPercentage.None?
    ensures StatsOf(data).totalScholarships == 0
  {
  }

  /** The header with the corrected count: the same totals, and the scholarships counted on
      the processed records. */
  function CorrectedStatsOf(data: seq<Person>): (r: Stats)
    ensures r.totalSupported == StatsOf(data).totalSupported && r.totalDonors == StatsOf(data).totalDonors
    ensures r.totalAmount == StatsOf(data).totalAmount && r.totalScholarships <= r.totalSupported
  {
    StatsOf(data).(totalScholarships := TotalScholarships(data))
  }

  /** The totals do not depend on the order the records arrive in. */
  lemma {:induction false} StatsOrderFree(a: seq<Person>, b: seq<Person>)
    requires multiset(a) == multiset(b)
    ensures StatsOf(a) == StatsOf(b)
  {
    assert |a| == |multiset(a)| == |multiset(b)| == |b|;
    Ordering.SumByPermutation(a, b, DonorsOf);
    Ordering.SumByPermutation(a, b, RaisedOf);
    Ordering.FilterCountPermutation(a, b, (p: Person) => p.progressPercentage.Some? && p.progressPercentage.value >= 100.0);
  }

  // ---------------------------------------------------------------------------------------
  // Filtering
  // ---------------------------------------------------------------------------------------

  predicate MatchesFilter(q: Processed, selected: string) {
    selected == "all" || UrgencyName(q.urgency) == selected
  }

  /** The search test: the name, and when it does not match, the location, compared in
      lower case. `None` is the TypeError a missing name or location throws. */
  function PersonSearch(q: Processed, query: string): (r: Option<bool>)
    ensures r == Some(true) <==>
      q.person.name.Some? && (Contains(ToLower(q.person.name.value), ToLower(query)) ||
                              (q.person.location.Some? && Contains(ToLower(q.person.location.value), ToLower(query))))
    ensures r.None? <==>
      q.person.name.None? || (!Contains(ToLower(q.person.name.value), ToLower(query)) && q.person.location.None?)
  {
    match q.person.name
    case None => None
    case Some(n) =>
      if Contains(ToLower(n), ToLower(query)) then Some(true)
      else
        match q.person.location
        case None => None
        case Some(l) => Some(Contains(ToLower(l), ToLower(query)))
  }

  predicate MatchesSearch(q: Processed, query: string) {
    query == "" || PersonSearch(q, query) == Some(true)
  }

  function Searched(query: string): Processed -> bool {
    (q: Processed) => PersonSearch(q, query) == Some(true)
  }

  /** `filtered.filter(search test)`: a test that throws ends the render. */
  function SearchPeople(people: seq<Processed>, query: string): (r: Option<seq<Processed>>)
    ensures r.None? <==> exists i :: 0 <= i < |people| && PersonSearch(people[i], query).None?
    ensures r.Some? ==> r.value == Ordering.Filter(people, Searched(query))
  {
    if people == [] then Some([])
    else
      var rest := SearchPeople(people[1..], query);
      assert forall i :: 1 <= i < |people| ==> people[i] == people[1..][i - 1];
      match PersonSearch(people[0], query)
      case None => None
      case Some(b) =>
        match rest
        case None => None
        case Some(tail) => Some(if b then [people[0]] + tail else tail)
  }

  function AtLevel(selected: string): Processed -> bool {
    (q: Processed) => UrgencyName(q.urgency) == selected
  }

  /** `getFilteredPeople`: the urgency filter unless it is `all`, then the search when the
      query is not empty; `None` when a search test throws. */
  function FilteredPeople(people: seq<Processed>, selected: string, query: string): Option<seq<Processed>> {
    var byLevel := if selected != "all" then Ordering.Filter(people, AtLevel(selected)) else people;
    if query != "" then SearchPeople(byLevel, query) else Some(byLevel)
  }

  /** The render fails exactly when a search is set and some record of the chosen level
      has no name, or has a name that does not match and no location. Otherwise the result
      keeps the order of the list and holds exactly the records that pass both the level
      and the search. */
  lemma {:induction false} FilteredPeopleSpec(people: seq<Processed>, selected: string, query: string)
    ensures FilteredPeople(people, selected, query).None? <==>
      query != "" && exists i :: 0 <= i < |people| && MatchesFilter(people[i], selected) &&
                                 PersonSearch(people[i], query).None?
    ensures var r := FilteredPeople(people, selected, query);
      r.Some? ==>
        Ordering.Subsequence(r.value, people) &&
        forall x :: x in r.value <==> x in people && MatchesFilter(x, selected) && MatchesSearch(x, query)
  {
    var a := if selected != "all" then Ordering.Filter(people, AtLevel(selected)) else people;
    assert Ordering.Subsequence(a, people) by {
      if selected == "all" {
        Ordering.FilterAll(people, (x: Processed) => true);
      }
    }
    assert forall x :: x in a <==> x in people && MatchesFilter(x, selected) by {
      forall x ensures x in a <==> x in people && MatchesFilter(x, selected) {
        if selected != "all" {
          Ordering.FilterMembers(people, AtLevel(selected), x);
        }
      }
    }
    if query != "" {
      LevelThrows(people, a, selected, query);
      var r := SearchPeople(a, query);
      if r.Some? {
        Ordering.SubsequenceTransitive(r.value, a, people);
        forall x ensures x in r.value <==> x in a && MatchesSearch(x, query) {
          Ordering.FilterMembers(a, Searched(query), x);
        }
      }
    }
  }

  /** Some record of the level list throws exactly when some record of the list at that
      level throws. */
  lemma {:induction false} LevelThrows(people: seq<Processed>, a: seq<Processed>, selected: string, query: string)
    requires forall x :: x in a <==> x in people && MatchesFilter(x, selected)
    ensures (exists i :: 0 <= i < |a| && PersonSearch(a[i], query).None?) <==>
      (exists i :: 0 <= i < |people| && MatchesFilter(people[i], selected) && PersonSearch(people[i], query).None?)
  {
    if exists i :: 0 <= i < |a| && PersonSearch(a[i], query).None? {
      var i :| 0 <= i < |a| && PersonSearch(a[i], query).None?;
      assert a[i] in people;
      var j :| 0 <= j < |people| && people[j] == a[i];
    }
    if exists i :: 0 <= i < |people| && MatchesFilter(people[i], selected) && PersonSearch(people[i], query).None? {
      var i :| 0 <= i < |people| && MatchesFilter(people[i], selected) && PersonSearch(people[i], query).None?;
      assert people[i] in a;
      var j :| 0 <= j < |a| && a[j] == people[i];
    }
  }

  /** The stored records have no location: a search that a shown record's name does not
      match fails the render instead of narrowing the list. */
  lemma {:induction false} UnmatchedNameWithoutLocationFails(people: seq<Processed>, i: nat, selected: string, query: string)
    requires i < |people| && MatchesFilter(people[i], selected) && query != ""
    requires people[i].person.name.Some? && !Contains(ToLower(people[i].person.name.value), ToLower(query))
    requires people[i].person.location.None?
    ensures FilteredPeople(people, selected, query).None?
  {
    FilteredPeopleSpec(people, selected, query);
  }

  // ---------------------------------------------------------------------------------------
  // Donation form
  // ---------------------------------------------------------------------------------------

  /** The values of the preset amount buttons. */
  const Presets: seq<string> := ["50000", "100000", "200000", "500000", "1000000"]

  /** An alert, or the confirmation of `amount`, whose `parseInt` goes in the request. */
  datatype Submission = MissingInfo | MissingAmount | Confirm(amount: string, parsed: Option<int>)

  /** `submitDonation`: a preset or `custom` must be chosen and the name and phone given;
      `custom` also needs a typed amount, which is then the one used. */
  function SubmitDonation(donationAmount: string, customAmount: string, donorName: string,
                          donorPhone: string): (r: Submission)
  {
    if donationAmount == "" || donorName == "" || donorPhone == "" then MissingInfo
    else if donationAmount == "custom" && customAmount == "" then MissingAmount
    else
      var amount := if donationAmount == "custom" then customAmount else donationAmount;
      Confirm(amount, ParseInt(amount))
  }

  /** A donation is confirmed exactly when the required fields are present, and the amount
      is the typed one exactly when `custom` was chosen. */
  lemma {:induction false} SubmitDonationIff(donationAmount: string, customAmount: string, donorName: string, donorPhone: string)
    ensures var r := SubmitDonation(donationAmount, customAmount, donorName, donorPhone);
      (r.Confirm? <==> donationAmount != "" && donorName != "" && donorPhone != "" &&
                        (donationAmount == "custom" ==> customAmount != "")) &&
      (r.Confirm? ==> r.amount == (if donationAmount == "custom" then customAmount else donationAmount) &&
                      r.parsed == ParseInt(r.amount))
  {
  }

  /** A typed amount made of the digits of a number sends that number. */
  lemma {:induction false} CustomAmountParsed(n: nat, donorName: string, donorPhone: string)
    requires donorName != "" && donorPhone != ""
    ensures SubmitDonation("custom", NatToString(n), donorName, donorPhone) ==
      Confirm(NatToString(n), Some(n))
  {
    ParseIntOfNat(n, "");
    assert NatToString(n) + "" == NatToString(n);
  }

  // ---------------------------------------------------------------------------------------
  // QR code
  // ---------------------------------------------------------------------------------------

  /** `generateQRUrl(id)`: the same Sepay URL as the donation screen builds, with the id
      placed in `des=` as it is, neither sanitised nor percent-encoded. A second argument
      is ignored. */
  function GenerateQrUrl(id: string): string {
    DonationScreen.QrEndpoint + DonationScreen.QueryWith(id)
  }

  /** An id without '&' gives exactly the five parameters, with the id as the memo. */
  lemma {:induction false} QrUrlVerbatim(id: string)
    requires !HasChar(id, '&')
    ensures GenerateQrUrl(id) == DonationScreen.QrEndpoint + DonationScreen.QueryWith(id)
    ensures Split(DonationScreen.QueryWith(id), '&') == DonationScreen.QueryParams(id)
    ensures DonationScreen.QueryParams(id)[2] == "des=" + id
  {
    DonationScreen.QueryParameters(id);
  }

  /** Each '&' in the id adds one parameter to the query. */
  lemma {:induction false} AmpersandAddsParameters(id: string)
    ensures |Split(DonationScreen.QueryWith(id), '&')| == 5 + CountChar(id, '&')
  {
    var ps := DonationScreen.QueryParams(id);
    var q := DonationScreen.QueryWith(id);
    JoinFive(ps[0], ps[1], ps[2], ps[3], ps[4], '&');
    assert ps == [ps[0], ps[1], ps[2], ps[3], ps[4]];
    assert !HasChar(ps[0], '&') && !HasChar(ps[1], '&') && !HasChar(ps[3], '&') && !HasChar(ps[4], '&');
    assert !HasChar("des=", '&');
    CountCharConcat("des=", id, '&');
    CountFive(ps[0], ps[1], ps[2], ps[3], ps[4]);
  }

  lemma {:induction false} JoinFive(a: string, b: string, c: string, e: string, f: string, d: char)
    ensures Join([a, b, c, e, f], d) == a + [d] + (b + [d] + (c + [d] + (e + [d] + f)))
  {
    assert [e, f][1..] == [f];
    assert Join([e, f], d) == e + [d] + f;
    assert [c, e, f][1..] == [e, f];
    assert Join([c, e, f], d) == c + [d] + (e + [d] + f);
    assert [b, c, e, f][1..] == [c, e, f];
    assert Join([b, c, e, f], d) == b + [d] + (c + [d] + (e + [d] + f));
    assert [a, b, c, e, f][1..] == [b, c, e, f];
  }

  lemma {:induction false} CountFive(a: string, b: string, c: string, e: string, f: string)
    ensures CountChar(a + "&" + (b + "&" + (c + "&" + (e + "&" + f))), '&') ==
      4 + CountChar(a, '&') + CountChar(b, '&') + CountChar(c, '&') + CountChar(e, '&') + CountChar(f, '&')
  {
    CountSeparated(e, f);
    CountSeparated(c, e + "&" + f);
    CountSeparated(b, c + "&" + (e + "&" + f));
    CountSeparated(a, b + "&" + (c + "&" + (e + "&" + f)));
  }

  lemma {:induction false} CountSeparated(a: string, b: string)
    ensures CountChar(a + "&" + b, '&') == CountChar(a, '&') + 1 + CountChar(b, '&')
  {
    CountCharConcat(a + "&", b, '&');
    CountCharConcat(a, "&", '&');
    assert CountChar("&", '&') == 1;
  }
}
