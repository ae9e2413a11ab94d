/**
 The job search panel (src/components/resume-builder/job-search-section.tsx):
 a fixed list of sample listings, filtered by a case-insensitive substring
 query over five of their fields.
 */
module JobSearch {
  import opened Base
  import opened Text

  datatype JobSource = PngWorkforce | Indeed

  /** A job listing; salary and posting date may be absent. */
  datatype JobListing = JobListing(
    id: string,
    title: string,
    company: string,
    location: string,
    province: string,
    salary: Option<string>,
    description: string,
    source: JobSource,
    postedDate: Option<string>)

  /** How many listings are shown when there is no query. */
  const DefaultCount: nat := 6

  /** The ten sample listings the panel searches. */
  const SampleJobs: seq<JobListing> := [
    JobListing("1", "Mining Engineer", "Ok Tedi Mining Limited", "Tabubil, Western Province", "Western Province",
      Some("K150,000 - K200,000/year"),
      "Seeking experienced mining engineer for open pit operations. Must have 5+ years experience in gold/copper mining. FIFO roster available.",
      PngWorkforce, Some("2 days ago")),
    JobListing("2", "Bank Teller", "Bank South Pacific", "Port Moresby, NCD", "National Capital District",
      Some("K35,000 - K45,000/year"),
      "Customer service role handling daily transactions, account inquiries, and banking products. Grade 12 certificate required.",
      PngWorkforce, Some("1 day ago")),
    JobListing("3", "Registered Nurse", "Angau Memorial Hospital", "Lae, Morobe Province", "Morobe Province",
      Some("K40,000 - K55,000/year"),
      "Full-time nursing position in general ward. Must be registered with PNG Nursing Council. Experience in tropical medicine preferred.",
      Indeed, Some("3 days ago")),
    JobListing("4", "Heavy Equipment Operator", "Newcrest Mining", "Lihir Island, New Ireland", "New Ireland Province",
      Some("K80,000 - K120,000/year"),
      "Operate CAT 777 haul trucks and excavators. Valid PNG driver's license required. FIFO with competitive allowances.",
      PngWorkforce, Some("Today")),
    JobListing("5", "Accountant", "Steamships Trading Company", "Port Moresby, NCD", "National Capital District",
      Some("K60,000 - K80,000/year"),
      "Manage financial reporting and compliance. CPA qualification preferred. Experience with SAP an advantage.",
      Indeed, Some("5 days ago")),
    JobListing("6", "Security Officer", "G4S PNG", "Multiple Locations", "Various",
      Some("K25,000 - K35,000/year"),
      "Provide security services for commercial and residential clients. Must have clean police clearance and Grade 10 certificate.",
      PngWorkforce, Some("1 week ago")),
    JobListing("7", "Teacher - Secondary", "Goroka International School", "Goroka, Eastern Highlands", "Eastern Highlands Province",
      Some("K45,000 - K65,000/year"),
      "Teaching position for Mathematics and Science. Bachelor's degree in Education required. Housing provided.",
      Indeed, Some("4 days ago")),
    JobListing("8", "Store Manager", "Brian Bell Group", "Mt Hagen, Western Highlands", "Western Highlands Province",
      Some("K50,000 - K70,000/year"),
      "Manage retail operations, staff supervision, and inventory control. 3+ years retail management experience required.",
      PngWorkforce, Some("2 days ago")),
    JobListing("9", "Electrician", "PNG Power Limited", "Lae, Morobe Province", "Morobe Province",
      Some("K45,000 - K60,000/year"),
      "Maintain and repair electrical systems. Trade certificate and PNG Electrical License required.",
      Indeed, Some("6 days ago")),
    JobListing("10", "Project Coordinator", "World Vision PNG", "Port Moresby, NCD", "National Capital District",
      Some("K55,000 - K75,000/year"),
      "Coordinate community development projects. Bachelor's degree and NGO experience preferred. Travel to provinces required.",
      PngWorkforce, Some("3 days ago"))
  ]

  /** A listing matches an already lowercased query when one of its five
      searchable fields, lowercased, contains it. */
  predicate Matches(job: JobListing, lowerQuery: string) {
    || Contains(Lower(job.title), lowerQuery)
    || Contains(Lower(job.company), lowerQuery)
    || Contains(Lower(job.location), lowerQuery)
    || Contains(Lower(job.province), lowerQuery)
    || Contains(Lower(job.description), lowerQuery)
  }

  /** `searchJobs`: a query that is blank after trimming shows the first
      six listings; any other query is lowercased, NOT trimmed, and keeps
      the matching listings in catalogue order. */
  function SearchJobs(catalogue: seq<JobListing>, query: string): (shown: seq<JobListing>)
    ensures IsSubseq(shown, catalogue)
    ensures AllWs(query) ==> shown == Take(catalogue, DefaultCount)
    ensures !AllWs(query) ==> forall i :: 0 <= i < |shown| ==> Matches(shown[i], Lower(query))
    ensures !AllWs(query) ==> forall i :: 0 <= i < |catalogue| && Matches(catalogue[i], Lower(query)) ==> catalogue[i] in shown
  {
    TrimBlankIff(query);
    if Trim(query) == "" then
      PrefixOrAllIsSubseq(catalogue, DefaultCount);
      Take(catalogue, DefaultCount)
    else
      Filter((job: JobListing) => Matches(job, Lower(query)), catalogue)
  }

  lemma PrefixOrAllIsSubseq<T>(s: seq<T>, n: nat)
    ensures IsSubseq(Take(s, n), s)
  {
    if |s| > n {
      PrefixIsSubseq(s, n);
    } else {
      PrefixIsSubseq(s, |s|);
      assert s[..|s|] == s;
    }
  }

  /** The panel: the query text and the listings shown. */
  datatype Panel = Panel(query: string, shown: seq<JobListing>)

  /** The panel when first shown: no query and the first six samples. */
  function InitialPanel(): (p: Panel)
    ensures p.query == "" && |p.shown| == DefaultCount
    ensures forall i :: 0 <= i < |p.shown| ==> p.shown[i] == SampleJobs[i]
  {
    Panel("", Take(SampleJobs, DefaultCount))
  }

  /** `handleClearSearch`: the query is emptied and the first six samples
      are shown again. */
  function ClearSearch(p: Panel): (r: Panel)
    ensures r == InitialPanel()
  {
    Panel("", Take(SampleJobs, DefaultCount))
  }

  /** The debounced search settles on the result for the current query. */
  function Settle(p: Panel): (r: Panel)
    ensures r.query == p.query && IsSubseq(r.shown, SampleJobs)
    ensures AllWs(p.query) ==> r.shown == Take(SampleJobs, DefaultCount)
    ensures !AllWs(p.query) ==> forall i :: 0 <= i < |SampleJobs| ==> (SampleJobs[i] in r.shown <==> Matches(SampleJobs[i], Lower(p.query)))
  {
    p.(shown := SearchJobs(SampleJobs, p.query))
  }

  /** Clearing and the initial state agree with what searching for the
      empty query shows, so the debounced search that follows changes
      nothing. */
  lemma ClearIsStable(p: Panel)
    ensures Settle(ClearSearch(p)) == ClearSearch(p) == InitialPanel() == Settle(InitialPanel())
  {
  }

  /** The query's letter case does not matter. */
  lemma SearchIgnoresQueryCase(catalogue: seq<JobListing>, query: string)
    ensures SearchJobs(catalogue, Lower(query)) == SearchJobs(catalogue, query)
  {
    LowerKeepsBlank(query);
    TrimBlankIff(query);
    TrimBlankIff(Lower(query));
    LowerIdempotent(query);
  }

  /** A listing whose only text is its title, "Bank Teller". */
  const TellerOnly: JobListing := JobListing("2", "Bank Teller", "", "", "", None, "", PngWorkforce, None)

  /** Surrounding spaces are part of a non-blank query: a listing whose
      only text is "Bank Teller" is found by "teller" but not by "teller ". */
  lemma QueryIsNotTrimmed()
    ensures SearchJobs([TellerOnly], "teller") == [TellerOnly]
    ensures SearchJobs([TellerOnly], "teller ") == []
  {
    TellerFound();
    TellerMissed();
  }

  lemma TellerFound()
    ensures SearchJobs([TellerOnly], "teller") == [TellerOnly]
  {
    assert Lower("Bank Teller") == "bank teller";
    assert !IsWs("teller"[0]);
    assert Lower("teller") == "teller";
    FindsTeller();
    assert Matches(TellerOnly, "teller");
  }

  lemma TellerMissed()
    ensures SearchJobs([TellerOnly], "teller ") == []
  {
    var q := "teller ";
    assert !IsWs(q[0]);
    TellerNoMatch();
  }

  /** No field of the teller listing contains "teller ". */
  lemma TellerNoMatch()
    ensures Lower("teller ") == "teller "
    ensures !Matches(TellerOnly, Lower("teller "))
  {
    var q := "teller ";
    assert Lower(q) == q;
    assert Lower("Bank Teller") == "bank teller";
    assert Lower("") == "";
    MissesTellerSpace();
    ContainsIff("", q);
  }

  lemma FindsTeller()
    ensures Contains("bank teller", "teller")
  {
    assert OccursAt("bank teller", "teller", 5);
    ContainsIff("bank teller", "teller");
  }

  lemma MissesTellerSpace()
    ensures !Contains("bank teller", "teller ")
  {
    var s := "bank teller";
    var sub := "teller ";
    forall i | 0 <= i && i + |sub| <= |s|
      ensures !OccursAt(s, sub, i)
    {
      assert s[i..i + |sub|][6] == s[i + 6] != ' ';
    }
    ContainsIff(s, sub);
  }

  /** Salary, source and posting date never decide a match. */
  lemma MatchIgnoresSalaryAndSource(job: JobListing, q: string, salary: Option<string>, source: JobSource, posted: Option<string>)
    ensures Matches(job.(salary := salary, source := source, postedDate := posted), q) == Matches(job, q)
  {
  }

  /** Two catalogues that differ only in salary, source and posting date
      yield results of the same length, listing for listing. */
  lemma {:induction false} SearchIgnoresSalaryAndSource(a: seq<JobListing>, b: seq<JobListing>, q: string)
    requires |a| == |b|
    requires forall i :: 0 <= i < |a| ==> b[i] == a[i].(salary := b[i].salary, source := b[i].source, postedDate := b[i].postedDate)
    requires !AllWs(q)
    ensures |SearchJobs(a, q)| == |SearchJobs(b, q)|
  {
    var p := (job: JobListing) => Matches(job, Lower(q));
    CountSameVerdicts(p, a, b);
  }

  lemma {:induction false} CountSameVerdicts(p: JobListing -> bool, a: seq<JobListing>, b: seq<JobListing>)
    requires |a| == |b|
    requires forall i :: 0 <= i < |a| ==> p(a[i]) == p(b[i])
    ensures Count(p, a) == Count(p, b)
    decreases |a|
  {
    if |a| > 0 {
      CountSameVerdicts(p, a[1..], b[1..]);
    }
  }
}
