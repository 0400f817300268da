/** The bill-list helpers of the admin dashboard: filtering by status, the
    card shown for a bill, the list of cards, and the bucket-to-status lookup. */
module BillUtils {
  import opened BillModel
  import opened Strings

  /** Where the filter runs. Under the test runner (`typeof jest` defined)
      only the status is compared; in the browser the reserved test accounts
      and the signed-in user's email are also excluded. The session read is
      injected here as `userEmail`. */
  datatype Env = Jest | Browser(usersTest: seq<string>, userEmail: string)

  /** Whether the filter may show a bill at all: in the browser, bills of
      the reserved test accounts and of the signed-in user are never shown. */
  predicate Visible(b: Bill, env: Env)
  {
    env.Browser? ==> b.email !in env.usersTest + [env.userEmail]
  }

  /** The filter's per-bill selection condition. */
  predicate Selected(b: Bill, status: string, env: Env)
  {
    b.status == status && Visible(b, env)
  }

  /** The `data.filter(...)` part of filterBills on a present list. */
  function FilterSeq(s: seq<Bill>, status: string, env: Env): (r: seq<Bill>)
    ensures |r| <= |s|
    ensures forall i :: 0 <= i < |r| ==> Selected(r[i], status, env)
  {
    if |s| == 0 then []
    else (if Selected(s[0], status, env) then [s[0]] else []) + FilterSeq(s[1..], status, env)
  }

  /** filterBills: the bills of `data` with the given status, minus (in the
      browser) those of test accounts and of the signed-in user. An absent or
      empty list gives the empty list. */
  function FilterBills(data: Option<seq<Bill>>, status: string, env: Env): (r: seq<Bill>)
    ensures data.None? || |data.value| == 0 ==> r == []
    ensures forall i :: 0 <= i < |r| ==> r[i].status == status
    ensures env.Browser? ==>
      forall i :: 0 <= i < |r| ==> r[i].email !in env.usersTest && r[i].email != env.userEmail
  {
    match data
    case None => []
    case Some(s) =>
      if |s| == 0 then []
      else
        var r := FilterSeq(s, status, env);
        assert forall i :: 0 <= i < |r| ==> Selected(r[i], status, env);
        r
  }

  /** `a` can be obtained from `b` by deleting elements, keeping the order. */
  ghost predicate IsSubsequence(a: seq<Bill>, b: seq<Bill>)
    decreases |b|
  {
    if |a| == 0 then true
    else if |b| == 0 then false
    else (a[0] == b[0] && IsSubsequence(a[1..], b[1..])) || IsSubsequence(a, b[1..])
  }

  /** The filter keeps the input's relative order: its output is a subsequence. */
  lemma {:induction false} FilterIsSubsequence(s: seq<Bill>, status: string, env: Env)
    ensures IsSubsequence(FilterBills(Some(s), status, env), s)
  {
    FilterSeqIsSubsequence(s, status, env);
  }

  lemma {:induction false} FilterSeqIsSubsequence(s: seq<Bill>, status: string, env: Env)
    ensures IsSubsequence(FilterSeq(s, status, env), s)
    decreases |s|
  {
    if |s| > 0 {
      FilterSeqIsSubsequence(s[1..], status, env);
      var r := FilterSeq(s, status, env);
      if Selected(s[0], status, env) {
        assert r[0] == s[0] && r[1..] == FilterSeq(s[1..], status, env);
      } else {
        assert r == FilterSeq(s[1..], status, env);
        if |r| > 0 {
          assert IsSubsequence(r, s[1..]);
        }
      }
    }
  }

  /** The filter drops nothing it should keep: every selected occurrence of a
      bill in the input is in the output, and nothing else is. */
  lemma {:induction false} FilterCounts(s: seq<Bill>, status: string, env: Env, b: Bill)
    ensures multiset(FilterBills(Some(s), status, env))[b] ==
      if Selected(b, status, env) then multiset(s)[b] else 0
  {
    FilterSeqCounts(s, status, env, b);
  }

  lemma {:induction false} FilterSeqCounts(s: seq<Bill>, status: string, env: Env, b: Bill)
    ensures multiset(FilterSeq(s, status, env))[b] ==
      if Selected(b, status, env) then multiset(s)[b] else 0
    decreases |s|
  {
    if |s| > 0 {
      FilterSeqCounts(s[1..], status, env, b);
      assert s == [s[0]] + s[1..];
      var head := if Selected(s[0], status, env) then [s[0]] else [];
      assert multiset(FilterSeq(s, status, env)) ==
        multiset(head) + multiset(FilterSeq(s[1..], status, env));
    }
  }

  /** Membership form of FilterCounts: a bill is in the output iff it is in
      the input and satisfies the selection condition. */
  lemma FilterMembership(s: seq<Bill>, status: string, env: Env, b: Bill)
    ensures b in FilterBills(Some(s), status, env) <==> b in s && Selected(b, status, env)
  {
    FilterCounts(s, status, env, b);
  }

  /** Filtering by status a second time changes nothing. */
  lemma {:induction false} FilterIdempotent(data: Option<seq<Bill>>, status: string, env: Env)
    ensures FilterBills(Some(FilterBills(data, status, env)), status, env) == FilterBills(data, status, env)
  {
    var r := FilterBills(data, status, env);
    if |r| > 0 {
      FilterSeqKeepsSelected(r, status, env);
    }
  }

  lemma {:induction false} FilterSeqKeepsSelected(s: seq<Bill>, status: string, env: Env)
    requires forall i :: 0 <= i < |s| ==> Selected(s[i], status, env)
    ensures FilterSeq(s, status, env) == s
    decreases |s|
  {
    if |s| > 0 {
      FilterSeqKeepsSelected(s[1..], status, env);
      assert [s[0]] + s[1..] == s;
    }
  }

  /** The filter distributes over concatenation. */
  lemma {:induction false} FilterSeqAppend(a: seq<Bill>, b: seq<Bill>, status: string, env: Env)
    ensures FilterSeq(a + b, status, env) == FilterSeq(a, status, env) + FilterSeq(b, status, env)
    decreases |a|
  {
    if |a| == 0 {
      assert a + b == b;
    } else {
      FilterSeqAppend(a[1..], b, status, env);
      var ab := a + b;
      assert ab[0] == a[0] && ab[1..] == a[1..] + b;
      var head := if Selected(a[0], status, env) then [a[0]] else [];
      calc {
        FilterSeq(ab, status, env);
        head + FilterSeq(a[1..] + b, status, env);
        head + (FilterSeq(a[1..], status, env) + FilterSeq(b, status, env));
        (head + FilterSeq(a[1..], status, env)) + FilterSeq(b, status, env);
      }
    }
  }

  /** Appending one bill to the list appends it to the filtered list
      exactly when it is selected. */
  lemma {:induction false} FilterAppendOne(s: seq<Bill>, d: Bill, status: string, env: Env)
    ensures FilterBills(Some(s + [d]), status, env) ==
      FilterBills(Some(s), status, env) + (if Selected(d, status, env) then [d] else [])
  {
    FilterSeqAppend(s, [d], status, env);
    assert [d][1..] == [];
    if |s| == 0 {
      assert s + [d] == [d];
    }
  }

  /** getStatus: the status of a dashboard bucket. Bucket 2 is accepted,
      bucket 3 refused; bucket 1 and every other index give pending. */
  function GetStatus(index: int): (r: string)
    ensures r in STATUSES
    ensures index == 1 ==> r == PENDING
    ensures index == 2 ==> r == ACCEPTED
    ensures index == 3 ==> r == REFUSED
    ensures index !in {1, 2, 3} ==> r == PENDING
  {
    match index
    case 1 => PENDING
    case 2 => ACCEPTED
    case 3 => REFUSED
    case _ => PENDING
  }

  /** Every status of the vocabulary is the status of exactly one bucket. */
  lemma GetStatusBuckets(status: string)
    requires status in STATUSES
    ensures exists k :: 1 <= k <= 3 && GetStatus(k) == status
    ensures forall k, j :: 1 <= k <= 3 && 1 <= j <= 3 && GetStatus(k) == status && GetStatus(j) == status ==> k == j
  {
    if status == PENDING {
      assert GetStatus(1) == status;
    } else if status == ACCEPTED {
      assert GetStatus(2) == status;
    } else {
      assert GetStatus(3) == status;
    }
  }

  /** Under the test runner, when every bill has a status of the vocabulary,
      the three buckets together hold every bill exactly once. */
  lemma {:induction false} BucketsPartition(s: seq<Bill>)
    requires forall i :: 0 <= i < |s| ==> s[i].status in STATUSES
    ensures |FilterBills(Some(s), GetStatus(1), Jest)| + |FilterBills(Some(s), GetStatus(2), Jest)|
      + |FilterBills(Some(s), GetStatus(3), Jest)| == |s|
  {
    BucketsPartitionSeq(s);
  }

  lemma {:induction false} BucketsPartitionSeq(s: seq<Bill>)
    requires forall i :: 0 <= i < |s| ==> s[i].status in STATUSES
    ensures |FilterSeq(s, PENDING, Jest)| + |FilterSeq(s, ACCEPTED, Jest)| + |FilterSeq(s, REFUSED, Jest)| == |s|
    decreases |s|
  {
    if |s| > 0 {
      BucketsPartitionSeq(s[1..]);
    }
  }

  /** The local part of an email: the text before its first `@`. */
  function LocalPart(email: string): (r: string)
    ensures '@' !in r
    ensures |r| <= |email| && email[..|r|] == r
    ensures |r| == |email| || email[|r|] == '@'
  {
    FirstSegment(email, '@')
  }

  /** The first and last name a card shows for an email. When the local part
      holds a `.`, the first name is the piece before the first `.` and the
      last name is the piece after it, up to the next `.` or the end;
      otherwise the first name is empty and the last name is the whole
      local part. */
  function CardNames(email: string): (r: (string, string))
    ensures '.' in LocalPart(email) ==> FirstTwo(LocalPart(email), '.', r.0, r.1)
    ensures '.' !in LocalPart(email) ==> r == ("", LocalPart(email))
  {
    var local := LocalPart(email);
    if '.' in local then
      FirstTwoSegments(local, '.');
      (FirstSegment(local, '.'), SecondSegment(local, '.'))
    else ("", local)
  }

  /** What one card shows, with its markup left out. The date is the raw
      stored date; its display formatting is not part of this model. */
  datatype CardView = CardView(
    billId: Option<string>,
    firstName: string,
    lastName: string,
    name: string,
    amount: Option<int>,
    date: string,
    expenseType: string)

  /** card: what a bill's card shows. The names come from the owner's
      email; the other fields are the bill's own. */
  function Card(b: Bill): (r: CardView)
    ensures r.billId == b.id && r.name == b.name && r.amount == b.amount
    ensures r.date == b.date && r.expenseType == b.expenseType
    ensures (r.firstName, r.lastName) == CardNames(b.email)
  {
    var names := CardNames(b.email);
    CardView(b.id, names.0, names.1, b.name, b.amount, b.date, b.expenseType)
  }

  /** cards: one card per bill, in order; nothing for an absent or empty list. */
  function Cards(bills: Option<seq<Bill>>): (r: seq<CardView>)
    ensures bills.None? ==> r == []
    ensures bills.Some? ==> |r| == |bills.value|
    ensures bills.Some? ==> forall i :: 0 <= i < |r| ==> r[i] == Card(bills.value[i])
  {
    match bills
    case None => []
    case Some(s) => CardsOf(s)
  }

  function CardsOf(s: seq<Bill>): (r: seq<CardView>)
    ensures |r| == |s|
    ensures forall i :: 0 <= i < |r| ==> r[i] == Card(s[i])
  {
    if |s| == 0 then [] else [Card(s[0])] + CardsOf(s[1..])
  }
}
