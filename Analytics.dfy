/**
 * The analytics view: headline counts, the three fixed-order histograms
 * (status and category without their empty buckets, priority with all four),
 * the five most recent tickets and the colour of each pie slice. Everything is
 * derived from the ticket list; nothing is stored.
 */
module Analytics {
  import opened Seqs
  import opened Records

  /** The three ticket fields the histograms group by. */
  datatype Field = Status | Priority | Category

  function FieldOf(t: Ticket, f: Field): string
  {
    match f
    case Status => t.status
    case Priority => t.priority
    case Category => t.category
  }

  /** `tickets.filter(t => t.<field> === value).length`. */
  function CountWith(tickets: seq<Ticket>, f: Field, value: string): (n: nat)
    ensures n <= |tickets|
    ensures n == 0 <==> forall i :: 0 <= i < |tickets| ==> FieldOf(tickets[i], f) != value
    decreases |tickets|
  {
    if tickets == [] then 0
    else (if FieldOf(tickets[0], f) == value then 1 else 0) + CountWith(tickets[1..], f, value)
  }

  /** The predicate `t => t.<field> === value` of the source's filters. */
  function HasValue(f: Field, value: string): Ticket -> bool
  {
    (t: Ticket) => FieldOf(t, f) == value
  }

  /** The count is the length of the filtered list, as the source computes it. */
  lemma {:induction false} CountWithIsFilterLength(tickets: seq<Ticket>, f: Field, value: string)
    ensures CountWith(tickets, f, value) == |Filter(HasValue(f, value), tickets)|
    decreases |tickets|
  {
    if tickets != [] {
      assert tickets == [tickets[0]] + tickets[1..];
      FilterCons(HasValue(f, value), tickets[0], tickets[1..]);
      CountWithIsFilterLength(tickets[1..], f, value);
    }
  }

  /** The number of tickets whose field holds one of `values`. */
  function CountIn(tickets: seq<Ticket>, f: Field, values: seq<string>): (n: nat)
    ensures n <= |tickets|
    decreases |tickets|
  {
    if tickets == [] then 0
    else (if FieldOf(tickets[0], f) in values then 1 else 0) + CountIn(tickets[1..], f, values)
  }

  /** Counting a list of distinct values one at a time adds up to counting them together. */
  lemma {:induction false} CountInCons(tickets: seq<Ticket>, f: Field, v: string, vs: seq<string>)
    requires v !in vs
    ensures CountIn(tickets, f, [v] + vs) == CountWith(tickets, f, v) + CountIn(tickets, f, vs)
    decreases |tickets|
  {
    if tickets != [] {
      CountInCons(tickets[1..], f, v, vs);
    }
  }

  /** When every ticket's field is among `values`, all of them are counted. */
  lemma {:induction false} CountInAll(tickets: seq<Ticket>, f: Field, values: seq<string>)
    requires forall i :: 0 <= i < |tickets| ==> FieldOf(tickets[i], f) in values
    ensures CountIn(tickets, f, values) == |tickets|
    decreases |tickets|
  {
    if tickets != [] {
      CountInAll(tickets[1..], f, values);
    }
  }

  // -------------------------------------------------------- headline counts

  /** `totalTickets`. */
  function TotalTickets(tickets: seq<Ticket>): nat
  {
    |tickets|
  }

  /** `openTickets`: zero exactly when no ticket is open. */
  function OpenTickets(tickets: seq<Ticket>): (n: nat)
    ensures n <= |tickets|
    ensures n == 0 <==> forall i :: 0 <= i < |tickets| ==> tickets[i].status != "open"
  {
    CountWith(tickets, Status, "open")
  }

  /** `resolvedTickets`: zero exactly when no ticket is resolved. */
  function ResolvedTickets(tickets: seq<Ticket>): (n: nat)
    ensures n <= |tickets|
    ensures n == 0 <==> forall i :: 0 <= i < |tickets| ==> tickets[i].status != "resolved"
  {
    CountWith(tickets, Status, "resolved")
  }

  /** Open and resolved tickets are disjoint, so together they never exceed the total. */
  lemma HeadlineCountsBounded(tickets: seq<Ticket>)
    ensures OpenTickets(tickets) <= TotalTickets(tickets)
    ensures ResolvedTickets(tickets) <= TotalTickets(tickets)
    ensures OpenTickets(tickets) + ResolvedTickets(tickets) <= TotalTickets(tickets)
  {
    CountInCons(tickets, Status, "open", ["resolved"]);
    assert ["open"] + ["resolved"] == ["open", "resolved"];
    CountInCons(tickets, Status, "resolved", []);
    assert ["resolved"] + [] == ["resolved"];
    CountInNone(tickets, Status);
  }

  // ------------------------------------------------------------- histograms

  /** One bar or pie slice: its label and how many tickets it stands for. */
  datatype Bucket = Bucket(name: string, value: nat)

  predicate IsPositive(b: Bucket)
  {
    b.value > 0
  }

  /** The sum of the bucket values. */
  function Total(bs: seq<Bucket>): nat
    decreases |bs|
  {
    if bs == [] then 0 else bs[0].value + Total(bs[1..])
  }

  /** Dropping empty buckets does not change the sum. */
  lemma {:induction false} TotalOfPositive(bs: seq<Bucket>)
    ensures Total(Filter(IsPositive, bs)) == Total(bs)
    decreases |bs|
  {
    if bs != [] {
      TotalOfPositive(bs[1..]);
    }
  }

  const StatusValues: seq<string> := ["open", "in_progress", "resolved", "closed"]
  const PriorityValues: seq<string> := ["low", "medium", "high", "urgent"]
  const CategoryValues: seq<string> := ["technical", "billing", "general", "feature_request", "bug_report"]

  lemma StatusValuesDistinct()
    ensures NoDuplicates(StatusValues)
  {
  }

  lemma PriorityValuesDistinct()
    ensures NoDuplicates(PriorityValues)
  {
  }

  lemma CategoryValuesDistinct()
    ensures NoDuplicates(CategoryValues)
  {
  }

  /** The literal status array before its empty entries are dropped. */
  function StatusBuckets(tickets: seq<Ticket>): seq<Bucket>
  {
    [ Bucket("Open", CountWith(tickets, Status, "open")),
      Bucket("In Progress", CountWith(tickets, Status, "in_progress")),
      Bucket("Resolved", CountWith(tickets, Status, "resolved")),
      Bucket("Closed", CountWith(tickets, Status, "closed")) ]
  }

  /** `statusData`: Open, In Progress, Resolved, Closed, empty buckets dropped. */
  function StatusData(tickets: seq<Ticket>): (r: seq<Bucket>)
    ensures |r| <= 4
    ensures forall b :: b in r <==> b in StatusBuckets(tickets) && b.value > 0
    ensures IsSubsequence(r, StatusBuckets(tickets))
  {
    Filter(IsPositive, StatusBuckets(tickets))
  }

  /** `priorityData`: Low, Medium, High, Urgent, empty buckets kept. */
  function PriorityData(tickets: seq<Ticket>): (r: seq<Bucket>)
    ensures |r| == |PriorityValues| == 4
    ensures r[0].name == "Low" && r[1].name == "Medium" && r[2].name == "High" && r[3].name == "Urgent"
    ensures forall i :: 0 <= i < |r| ==> r[i].value == CountWith(tickets, Priority, PriorityValues[i])
  {
    var r := [ Bucket("Low", CountWith(tickets, Priority, "low")),
      Bucket("Medium", CountWith(tickets, Priority, "medium")),
      Bucket("High", CountWith(tickets, Priority, "high")),
      Bucket("Urgent", CountWith(tickets, Priority, "urgent")) ];
    assert forall i :: 0 <= i < 4 ==> r[i].value == CountWith(tickets, Priority, PriorityValues[i]) by {
      forall i | 0 <= i < 4 ensures r[i].value == CountWith(tickets, Priority, PriorityValues[i]) {
        if i == 0 {} else if i == 1 {} else if i == 2 {} else {}
      }
    }
    r
  }


  /** The literal category array before its empty entries are dropped. */
  function CategoryBuckets(tickets: seq<Ticket>): seq<Bucket>
  {
    [ Bucket("Technical", CountWith(tickets, Category, "technical")),
      Bucket("Billing", CountWith(tickets, Category, "billing")),
      Bucket("General", CountWith(tickets, Category, "general")),
      Bucket("Feature Request", CountWith(tickets, Category, "feature_request")),
      Bucket("Bug Report", CountWith(tickets, Category, "bug_report")) ]
  }

  /** `categoryData`: the five categories in fixed order, empty buckets dropped. */
  function CategoryData(tickets: seq<Ticket>): (r: seq<Bucket>)
    ensures |r| <= 5
    ensures forall b :: b in r <==> b in CategoryBuckets(tickets) && b.value > 0
    ensures IsSubsequence(r, CategoryBuckets(tickets))
  {
    Filter(IsPositive, CategoryBuckets(tickets))
  }

  /** The sum of the counts of the given values, one bucket each. */
  function SumOfCounts(tickets: seq<Ticket>, f: Field, values: seq<string>): nat
    decreases |values|
  {
    if values == [] then 0 else CountWith(tickets, f, values[0]) + SumOfCounts(tickets, f, values[1..])
  }

  /** One bucket per distinct value: together they count the tickets holding any of the values. */
  lemma {:induction false} SumOfCountsIsCountIn(tickets: seq<Ticket>, f: Field, values: seq<string>)
    requires NoDuplicates(values)
    ensures SumOfCounts(tickets, f, values) == CountIn(tickets, f, values)
    decreases |values|
  {
    if values == [] {
      CountInNone(tickets, f);
    } else {
      assert values == [values[0]] + values[1..];
      assert values[0] !in values[1..];
      SumOfCountsIsCountIn(tickets, f, values[1..]);
      CountInCons(tickets, f, values[0], values[1..]);
    }
  }

  lemma {:induction false} CountInNone(tickets: seq<Ticket>, f: Field)
    ensures CountIn(tickets, f, []) == 0
    decreases |tickets|
  {
    if tickets != [] {
      CountInNone(tickets[1..], f);
    }
  }

  lemma StatusBucketsTotal(tickets: seq<Ticket>)
    ensures Total(StatusBuckets(tickets)) == SumOfCounts(tickets, Status, StatusValues)
  {
    var b, v := StatusBuckets(tickets), StatusValues;
    assert b[1..][1..][1..][1..] == [] && v[1..][1..][1..][1..] == [];
    assert Total(b[1..][1..][1..]) == SumOfCounts(tickets, Status, v[1..][1..][1..]);
    assert Total(b[1..][1..]) == SumOfCounts(tickets, Status, v[1..][1..]);
    assert Total(b[1..]) == SumOfCounts(tickets, Status, v[1..]);
  }

  lemma PriorityDataTotal(tickets: seq<Ticket>)
    ensures Total(PriorityData(tickets)) == SumOfCounts(tickets, Priority, PriorityValues)
  {
    var b, v := PriorityData(tickets), PriorityValues;
    assert b[1..][1..][1..][1..] == [] && v[1..][1..][1..][1..] == [];
    assert Total(b[1..][1..][1..]) == SumOfCounts(tickets, Priority, v[1..][1..][1..]);
    assert Total(b[1..][1..]) == SumOfCounts(tickets, Priority, v[1..][1..]);
    assert Total(b[1..]) == SumOfCounts(tickets, Priority, v[1..]);
  }

  lemma CategoryBucketsTotal(tickets: seq<Ticket>)
    ensures Total(CategoryBuckets(tickets)) == SumOfCounts(tickets, Category, CategoryValues)
  {
    var b, v := CategoryBuckets(tickets), CategoryValues;
    assert b[1..][1..][1..][1..][1..] == [] && v[1..][1..][1..][1..][1..] == [];
    assert Total(b[1..][1..][1..][1..]) == SumOfCounts(tickets, Category, v[1..][1..][1..][1..]);
    assert Total(b[1..][1..][1..]) == SumOfCounts(tickets, Category, v[1..][1..][1..]);
    assert Total(b[1..][1..]) == SumOfCounts(tickets, Category, v[1..][1..]);
    assert Total(b[1..]) == SumOfCounts(tickets, Category, v[1..]);
  }

  /**
   * The status slices add up to the tickets with a recognised status, and so
   * to all tickets when every status is recognised.
   */
  lemma StatusDataSum(tickets: seq<Ticket>)
    ensures Total(StatusData(tickets)) == CountIn(tickets, Status, StatusValues)
    ensures (forall i :: 0 <= i < |tickets| ==> tickets[i].status in StatusValues) ==>
      Total(StatusData(tickets)) == |tickets|
  {
    calc {
      Total(StatusData(tickets));
    == { TotalOfPositive(StatusBuckets(tickets)); }
      Total(StatusBuckets(tickets));
    == { StatusBucketsTotal(tickets); }
      SumOfCounts(tickets, Status, StatusValues);
    == { StatusValuesDistinct(); SumOfCountsIsCountIn(tickets, Status, StatusValues); }
      CountIn(tickets, Status, StatusValues);
    }
    if forall i :: 0 <= i < |tickets| ==> tickets[i].status in StatusValues {
      CountInAll(tickets, Status, StatusValues);
    }
  }

  /** The priority bars add up to the tickets with a recognised priority. */
  lemma PriorityDataSum(tickets: seq<Ticket>)
    ensures Total(PriorityData(tickets)) == CountIn(tickets, Priority, PriorityValues)
    ensures (forall i :: 0 <= i < |tickets| ==> tickets[i].priority in PriorityValues) ==>
      Total(PriorityData(tickets)) == |tickets|
  {
    calc {
      Total(PriorityData(tickets));
    == { PriorityDataTotal(tickets); }
      SumOfCounts(tickets, Priority, PriorityValues);
    == { PriorityValuesDistinct(); SumOfCountsIsCountIn(tickets, Priority, PriorityValues); }
      CountIn(tickets, Priority, PriorityValues);
    }
    if forall i :: 0 <= i < |tickets| ==> tickets[i].priority in PriorityValues {
      CountInAll(tickets, Priority, PriorityValues);
    }
  }

  /** The category bars add up to the tickets with a recognised category. */
  lemma CategoryDataSum(tickets: seq<Ticket>)
    ensures Total(CategoryData(tickets)) == CountIn(tickets, Category, CategoryValues)
    ensures (forall i :: 0 <= i < |tickets| ==> tickets[i].category in CategoryValues) ==>
      Total(CategoryData(tickets)) == |tickets|
  {
    calc {
      Total(CategoryData(tickets));
    == { TotalOfPositive(CategoryBuckets(tickets)); }
      Total(CategoryBuckets(tickets));
    == { CategoryBucketsTotal(tickets); }
      SumOfCounts(tickets, Category, CategoryValues);
    == { CategoryValuesDistinct(); SumOfCountsIsCountIn(tickets, Category, CategoryValues); }
      CountIn(tickets, Category, CategoryValues);
    }
    if forall i :: 0 <= i < |tickets| ==> tickets[i].category in CategoryValues {
      CountInAll(tickets, Category, CategoryValues);
    }
  }

  /**
   * When no later bucket shares the first one's name, the first slice carries
   * that name exactly when the first bucket is non-empty, and is then that bucket.
   */
  lemma FirstSliceIsFirstBucket(h: seq<Bucket>)
    requires |h| > 0
    requires forall i :: 1 <= i < |h| ==> h[i].name != h[0].name
    ensures h[0].value > 0 <==> (|Filter(IsPositive, h)| > 0 && Filter(IsPositive, h)[0].name == h[0].name)
    ensures h[0].value > 0 ==> Filter(IsPositive, h)[0] == h[0]
  {
    assert h == [h[0]] + h[1..];
    FilterCons(IsPositive, h[0], h[1..]);
    var rest := Filter(IsPositive, h[1..]);
    if rest != [] {
      assert rest[0] in h[1..];
    }
  }

  /**
   * The Open slice is present exactly when some ticket is open; it is then the
   * first slice and shows the same number as the Open Tickets card.
   */
  lemma OpenSliceMatchesOpenCount(tickets: seq<Ticket>)
    ensures OpenTickets(tickets) > 0 <==> (|StatusData(tickets)| > 0 && StatusData(tickets)[0].name == "Open")
    ensures OpenTickets(tickets) > 0 ==> StatusData(tickets)[0] == Bucket("Open", OpenTickets(tickets))
  {
    FirstSliceIsFirstBucket(StatusBuckets(tickets));
  }

  // --------------------------------------------------- recent and colours

  /** `tickets.slice(0, 5)`: the first five tickets, in the order given. */
  function RecentActivity(tickets: seq<Ticket>): (r: seq<Ticket>)
    ensures |r| == Min(5, |tickets|)
    ensures r == tickets[..|r|]
  {
    Slice(tickets, 0, 5)
  }

  const Colors: seq<string> := ["#8884d8", "#82ca9d", "#ffc658", "#ff7300", "#0088fe"]

  /** `COLORS[index % COLORS.length]`. */
  function CellColor(index: nat): (c: string)
    ensures c in Colors
  {
    Colors[index % |Colors|]
  }

  /** The fills of `n` consecutive pie slices, from the first. */
  function SliceColors(n: nat): (r: seq<string>)
    ensures |r| == n
    ensures forall i :: 0 <= i < n ==> r[i] == Colors[i % |Colors|]
  {
    seq(n, i requires 0 <= i < n => CellColor(i))
  }

  lemma ColorsDistinct()
    ensures NoDuplicates(Colors)
  {
  }

  /** The status pie has at most four slices, so no two of them share a colour. */
  lemma StatusSlicesHaveDistinctColors(tickets: seq<Ticket>)
    ensures NoDuplicates(SliceColors(|StatusData(tickets)|))
  {
    FewSlicesHaveDistinctColors(|StatusData(tickets)|);
  }

  /** Up to five consecutive slices, from the first, never share a colour. */
  lemma FewSlicesHaveDistinctColors(n: nat)
    requires n <= |Colors|
    ensures NoDuplicates(SliceColors(n))
  {
    var r := SliceColors(n);
    ColorsDistinct();
    assert |Colors| == 5;
    forall i, j | 0 <= i < j < n ensures r[i] != r[j] {
      assert i % 5 == i && j % 5 == j;
      assert r[i] == Colors[i] && r[j] == Colors[j];
    }
  }

  /** A ticket that differs from `t` only in its priority. */
  function WithPriority(t: Ticket, priority: string): Ticket
  {
    t.(priority := priority)
  }

  /** The four example tickets: priorities low, high, high, urgent. */
  function ExampleTickets(t: Ticket): seq<Ticket>
  {
    [WithPriority(t, "low"), WithPriority(t, "high"), WithPriority(t, "high"), WithPriority(t, "urgent")]
  }

  lemma ExampleCounts(t: Ticket, v: string)
    ensures CountWith(ExampleTickets(t), Priority, v)
      == (if v == "low" then 1 else 0) + 2 * (if v == "high" then 1 else 0) + (if v == "urgent" then 1 else 0)
  {
    var ts := ExampleTickets(t);
    assert ts[1..][1..][1..][1..] == [];
    assert CountWith(ts[1..][1..][1..], Priority, v) == (if v == "urgent" then 1 else 0);
    assert CountWith(ts[1..][1..], Priority, v) == (if v == "high" then 1 else 0) + CountWith(ts[1..][1..][1..], Priority, v);
  }

  /** Priorities low, high, high, urgent give the bars 1, 0, 2, 1. */
  lemma PriorityExample(t: Ticket)
    ensures PriorityData(ExampleTickets(t))
      == [Bucket("Low", 1), Bucket("Medium", 0), Bucket("High", 2), Bucket("Urgent", 1)]
  {
    ExampleCounts(t, "low");
    ExampleCounts(t, "medium");
    ExampleCounts(t, "high");
    ExampleCounts(t, "urgent");
  }
}
