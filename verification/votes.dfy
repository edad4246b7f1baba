/** The vote ledger: visitors vote for their preferred platform on a
    product, at most once per product and network address, and the product
    page shows the counts and shares of the votes. The ledger is the vote
    table as an append-only sequence of rows. */
module Votes {
  import opened Wrappers
  import opened Platforms

  datatype Vote = Vote(product: nat, ip: string, platform: Platform)

  type Ledger = seq<Vote>

  /** The table's uniqueness constraint: no two rows share a product and an
      address. */
  predicate OnePerVisitor(l: Ledger)
  {
    forall i, j :: 0 <= i < j < |l| ==> !(l[i].product == l[j].product && l[i].ip == l[j].ip)
  }

  /** The platform of the row for `(product, ip)`, if there is one (the
      "get" half of get-or-create). */
  function Lookup(l: Ledger, product: nat, ip: string): (r: Option<Platform>)
    ensures r.None? <==> forall i :: 0 <= i < |l| ==> !(l[i].product == product && l[i].ip == ip)
    ensures r.Some? ==> exists i :: 0 <= i < |l| && l[i] == Vote(product, ip, r.value)
  {
    if |l| == 0 then None
    else if l[|l| - 1].product == product && l[|l| - 1].ip == ip then Some(l[|l| - 1].platform)
    else
      var r := Lookup(l[..|l| - 1], product, ip);
      assert forall i :: 0 <= i < |l| - 1 ==> l[..|l| - 1][i] == l[i];
      r
  }

  /** Under the uniqueness constraint the row for a pair is the one Lookup
      returns. */
  lemma LookupFindsTheRow(l: Ledger, i: nat)
    requires OnePerVisitor(l) && i < |l|
    ensures Lookup(l, l[i].product, l[i].ip) == Some(l[i].platform)
  {
  }

  /** The number of votes for `platform` on `product`. */
  function CountFor(l: Ledger, product: nat, platform: Platform): (n: nat)
    ensures n <= |l|
    ensures n == 0 <==> forall i :: 0 <= i < |l| ==> !(l[i].product == product && l[i].platform == platform)
  {
    if |l| == 0 then 0
    else
      var n := CountFor(l[..|l| - 1], product, platform);
      assert forall i :: 0 <= i < |l| - 1 ==> l[..|l| - 1][i] == l[i];
      n + (if l[|l| - 1].product == product && l[|l| - 1].platform == platform then 1 else 0)
  }

  /** The number of votes on `product`, whatever the platform. */
  function VotesOn(l: Ledger, product: nat): (n: nat)
    ensures n <= |l|
  {
    if |l| == 0 then 0
    else VotesOn(l[..|l| - 1], product) + (if l[|l| - 1].product == product then 1 else 0)
  }

  /** A new row adds one to its own product and platform's count and to no
      other. */
  lemma CountForAppend(l: Ledger, v: Vote, product: nat, platform: Platform)
    ensures CountFor(l + [v], product, platform)
         == CountFor(l, product, platform) + (if v.product == product && v.platform == platform then 1 else 0)
  {
  }

  /** A new row adds one to its own product's votes and to no other's. */
  lemma VotesOnAppend(l: Ledger, v: Vote, product: nat)
    ensures VotesOn(l + [v], product) == VotesOn(l, product) + (if v.product == product then 1 else 0)
  {
  }

  /** Every vote is for one of the two platforms, so the two counts add up
      to the product's votes. */
  lemma {:induction false} CountsSumToVotes(l: Ledger, product: nat)
    ensures CountFor(l, product, Amazon) + CountFor(l, product, EBay) == VotesOn(l, product)
  {
    if |l| > 0 {
      CountsSumToVotes(l[..|l| - 1], product);
    }
  }

  /** The per-platform counts returned after a vote and shown on the
      product page; a platform without votes counts 0. */
  datatype Counts = Counts(amazon: nat, ebay: nat)

  function CountVotes(l: Ledger, product: nat): (c: Counts)
    ensures c.amazon + c.ebay == VotesOn(l, product)
    ensures c.amazon == CountFor(l, product, Amazon) && c.ebay == CountFor(l, product, EBay)
  {
    CountsSumToVotes(l, product);
    Counts(CountFor(l, product, Amazon), CountFor(l, product, EBay))
  }

  /** Percentages of the total, defined only when there is at least one vote. */
  datatype Shares = Shares(amazonPercent: real, ebayPercent: real)

  function SharesOf(c: Counts): (r: Option<Shares>)
    ensures r.Some? <==> c.amazon + c.ebay > 0
    ensures r.Some? ==> 0.0 <= r.value.amazonPercent <= 100.0 && 0.0 <= r.value.ebayPercent <= 100.0
    ensures r.Some? ==> r.value.amazonPercent + r.value.ebayPercent == 100.0
    ensures r.Some? ==> r.value.amazonPercent * (c.amazon + c.ebay) as real == (100 * c.amazon) as real
  {
    var total := c.amazon + c.ebay;
    if total > 0 then
      var t := total as real;
      var a := c.amazon as real / t * 100.0;
      var e := c.ebay as real / t * 100.0;
      assert a + e == (c.amazon as real + c.ebay as real) / t * 100.0;
      Some(Shares(a, e))
    else None
  }

  /** The vote statistics of a product page: the counts, and the shares
      when the product has votes. */
  datatype Stats = Stats(counts: Counts, shares: Option<Shares>)

  function ProductStats(l: Ledger, product: nat): (r: Stats)
    ensures r.counts.amazon + r.counts.ebay == VotesOn(l, product)
    ensures r.counts.amazon == CountFor(l, product, Amazon) && r.counts.ebay == CountFor(l, product, EBay)
    ensures r.shares.Some? ==> r.shares.value.amazonPercent * VotesOn(l, product) as real == (100 * r.counts.amazon) as real
    ensures r.shares.Some? <==> VotesOn(l, product) > 0
    ensures r.shares.Some? ==> r.shares.value.amazonPercent + r.shares.value.ebayPercent == 100.0
  {
    var c := CountVotes(l, product);
    Stats(c, SharesOf(c))
  }

  /** The outcome of a vote submission. */
  datatype Outcome = InvalidPlatform | AlreadyVoted | Recorded(counts: Counts)

  /** One vote submission for an existing product: the platform is
      validated, then a row is created for `(product, ip)` unless one
      exists, in which case the earlier vote stands. */
  function Submit(l: Ledger, product: nat, platform: Option<string>, ip: string)
    : (res: (Ledger, Outcome))
    ensures Parse(platform).None? ==> res == (l, InvalidPlatform)
    ensures Parse(platform).Some? && Lookup(l, product, ip).Some? ==> res == (l, AlreadyVoted)
    ensures Parse(platform).Some? && Lookup(l, product, ip).None? ==>
      && res.0 == l + [Vote(product, ip, Parse(platform).value)]
      && res.1 == Recorded(CountVotes(res.0, product))
    ensures OnePerVisitor(l) ==> OnePerVisitor(res.0)
    ensures Lookup(res.0, product, ip).Some? <==> Lookup(l, product, ip).Some? || res.1.Recorded?
  {
    match Parse(platform)
    case None => (l, InvalidPlatform)
    case Some(p) =>
      if Lookup(l, product, ip).Some? then (l, AlreadyVoted)
      else
        var l' := l + [Vote(product, ip, p)];
        assert l'[..|l'| - 1] == l;
        (l', Recorded(CountVotes(l', product)))
  }

  /** A recorded vote adds one vote for the chosen platform on that product
      and changes no other count. */
  lemma RecordedVoteCounts(l: Ledger, product: nat, platform: Option<string>, ip: string, other: nat, q: Platform)
    requires Submit(l, product, platform, ip).1.Recorded?
    ensures CountFor(Submit(l, product, platform, ip).0, other, q)
         == CountFor(l, other, q) + (if other == product && q == Parse(platform).value then 1 else 0)
  {
  }

  /** A repeat vote keeps the first vote's platform, whatever is submitted. */
  lemma FirstVoteSticks(l: Ledger, product: nat, platform: Option<string>, ip: string)
    requires Lookup(l, product, ip).Some?
    ensures Submit(l, product, platform, ip).0 == l
    ensures Lookup(Submit(l, product, platform, ip).0, product, ip) == Lookup(l, product, ip)
    ensures !Submit(l, product, platform, ip).1.Recorded?
  {
  }

  /** A submission: product, submitted platform field and network address. */
  datatype Submission = Submission(product: nat, platform: Option<string>, ip: string)

  /** Submissions handled one after the other, with their outcomes. */
  function Replay(l: Ledger, subs: seq<Submission>): (res: (Ledger, seq<Outcome>))
    ensures |res.1| == |subs|
    ensures OnePerVisitor(l) ==> OnePerVisitor(res.0)
    decreases |subs|
  {
    if |subs| == 0 then (l, [])
    else
      var first := Submit(l, subs[0].product, subs[0].platform, subs[0].ip);
      var rest := Replay(first.0, subs[1..]);
      (rest.0, [first.1] + rest.1)
  }

  function RecordedCount(os: seq<Outcome>): nat
  {
    if |os| == 0 then 0 else (if os[0].Recorded? then 1 else 0) + RecordedCount(os[1..])
  }

  /** The first platform among the submissions that passes validation. */
  function FirstValid(subs: seq<Submission>): Option<Platform>
  {
    if |subs| == 0 then None
    else if Parse(subs[0].platform).Some? then Parse(subs[0].platform)
    else FirstValid(subs[1..])
  }

  predicate SameVisitor(subs: seq<Submission>, product: nat, ip: string)
  {
    forall k :: 0 <= k < |subs| ==> subs[k].product == product && subs[k].ip == ip
  }

  /** Once a visitor has voted on a product, further submissions of theirs
      for it record nothing and leave the ledger unchanged. */
  lemma {:induction false} RepeatsChangeNothing(l: Ledger, subs: seq<Submission>, product: nat, ip: string)
    requires SameVisitor(subs, product, ip)
    requires Lookup(l, product, ip).Some?
    ensures Replay(l, subs).0 == l
    ensures RecordedCount(Replay(l, subs).1) == 0
    decreases |subs|
  {
    if |subs| > 0 {
      assert subs[0].product == product && subs[0].ip == ip;
      RepeatsChangeNothing(l, subs[1..], product, ip);
      assert SameVisitor(subs[1..], product, ip) by {
        forall k | 0 <= k < |subs[1..]| ensures subs[1..][k].product == product && subs[1..][k].ip == ip {
          assert subs[1..][k] == subs[k + 1];
        }
      }
    }
  }

  /** Any run of submissions from one address for one product it has not
      voted on records at most one vote: exactly one when some submission
      names a valid platform, and then the stored platform is the first
      valid one. */
  lemma {:induction false} OneVisitorOneVote(l: Ledger, subs: seq<Submission>, product: nat, ip: string)
    requires SameVisitor(subs, product, ip)
    requires Lookup(l, product, ip).None?
    ensures RecordedCount(Replay(l, subs).1) == (if FirstValid(subs).Some? then 1 else 0)
    ensures Lookup(Replay(l, subs).0, product, ip) == FirstValid(subs)
    decreases |subs|
  {
    if |subs| > 0 {
      assert subs[0].product == product && subs[0].ip == ip;
      assert SameVisitor(subs[1..], product, ip) by {
        forall k | 0 <= k < |subs[1..]| ensures subs[1..][k].product == product && subs[1..][k].ip == ip {
          assert subs[1..][k] == subs[k + 1];
        }
      }
      var first := Submit(l, product, subs[0].platform, ip);
      if Parse(subs[0].platform).Some? {
        assert Lookup(first.0, product, ip) == Parse(subs[0].platform);
        RepeatsChangeNothing(first.0, subs[1..], product, ip);
      } else {
        OneVisitorOneVote(l, subs[1..], product, ip);
      }
    }
  }

  /** The worked example: two votes from one address with different
      platforms leave only the first. */
  lemma SecondVoteRejected()
    ensures Submit([], 1, Some("amazon"), "10.0.0.1").1 == Recorded(Counts(1, 0))
    ensures Submit(Submit([], 1, Some("amazon"), "10.0.0.1").0, 1, Some("ebay"), "10.0.0.1")
         == ([Vote(1, "10.0.0.1", Amazon)], AlreadyVoted)
    ensures Submit([], 1, Some("paypal"), "10.0.0.1") == ([], InvalidPlatform)
  {
  }

  /** Three Amazon votes and one eBay vote show as 75 and 25 percent. */
  lemma SharesExample()
    ensures SharesOf(Counts(3, 1)) == Some(Shares(75.0, 25.0))
  {
  }
}
