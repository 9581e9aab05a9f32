/** Candidate coins of internal/txbuilder/txbuilder.go and their canonical order. */
module Coins {
  import opened Common

  datatype Coin = Coin(id: string, vout: uint32, amount: int64)

  datatype CoinError = NoUtxos | NonPositiveAmount | DuplicateUtxo

  // ----------------------------------------------------------------- "id:vout"

  function Digit(d: nat): char
    requires d < 10
  {
    ('0' as int + d) as char
  }

  function Decimal(n: nat): (s: string)
    ensures s != [] && forall i :: 0 <= i < |s| ==> s[i] != ':'
  {
    if n < 10 then [Digit(n)] else Decimal(n / 10) + [Digit(n % 10)]
  }

  lemma {:induction false} DecimalInjective(m: nat, n: nat)
    requires Decimal(m) == Decimal(n)
    ensures m == n
  {
    var s := Decimal(m);
    assert s[|s| - 1] == Digit(m % 10) && s[|s| - 1] == Digit(n % 10);
    if m >= 10 && n >= 10 {
      assert s[..|s| - 1] == Decimal(m / 10) && s[..|s| - 1] == Decimal(n / 10);
      DecimalInjective(m / 10, n / 10);
    }
  }

  function Key(c: Coin): string { c.id + ":" + Decimal(c.vout) }

  lemma {:induction false} LastColon(a: string, b: string, x: string, y: string)
    requires a + ":" + x == b + ":" + y
    requires forall i :: 0 <= i < |x| ==> x[i] != ':'
    requires forall i :: 0 <= i < |y| ==> y[i] != ':'
    ensures a == b && x == y
    decreases |x|
  {
    var s := a + ":" + x;
    assert s[|s| - 1] == if x == "" then ':' else x[|x| - 1];
    assert s[|s| - 1] == if y == "" then ':' else y[|y| - 1];
    if x == "" {
      assert s[..|s| - 1] == a && s[..|s| - 1] == b;
    } else {
      assert s[..|s| - 1] == a + ":" + x[..|x| - 1] && s[..|s| - 1] == b + ":" + y[..|y| - 1];
      LastColon(a, b, x[..|x| - 1], y[..|y| - 1]);
    }
  }

  /** The formatted key names one outpoint, even for ids that contain ':'. */
  lemma KeyInjective(c: Coin, d: Coin)
    ensures Key(c) == Key(d) <==> c.id == d.id && c.vout == d.vout
  {
    if Key(c) == Key(d) {
      LastColon(c.id, d.id, Decimal(c.vout), Decimal(d.vout));
      DecimalInjective(c.vout, d.vout);
    }
  }

  // ---------------------------------------------------------------- total order

  /** Go's `<` on strings. */
  predicate StringLess(s: string, t: string) {
    if t == "" then false
    else if s == "" then true
    else s[0] < t[0] || (s[0] == t[0] && StringLess(s[1..], t[1..]))
  }

  predicate Less(a: Coin, b: Coin) {
    if a.amount != b.amount then a.amount < b.amount
    else if a.id != b.id then StringLess(a.id, b.id)
    else a.vout < b.vout
  }

  lemma {:induction false} StringLessTotal(s: string, t: string)
    ensures s != t ==> StringLess(s, t) || StringLess(t, s)
    ensures !(StringLess(s, t) && StringLess(t, s))
    ensures !StringLess(s, s)
  {
    if s != "" && t != "" && s[0] == t[0] {
      assert s == [s[0]] + s[1..] && t == [t[0]] + t[1..];
      StringLessTotal(s[1..], t[1..]);
    }
    if s != "" {
      StringIrreflexive(s);
    }
  }

  lemma {:induction false} StringIrreflexive(s: string)
    ensures !StringLess(s, s)
  {
    if s != "" { StringIrreflexive(s[1..]); }
  }

  lemma {:induction false} StringLessTransitive(s: string, t: string, u: string)
    requires StringLess(s, t) && StringLess(t, u)
    ensures StringLess(s, u)
  {
    if s != "" && s[0] == t[0] == u[0] {
      StringLessTransitive(s[1..], t[1..], u[1..]);
    }
  }

  lemma LessTotal(a: Coin, b: Coin)
    ensures a != b ==> Less(a, b) || Less(b, a)
    ensures !(Less(a, b) && Less(b, a)) && !Less(a, a)
  {
    StringLessTotal(a.id, b.id);
  }

  lemma LessTransitive(a: Coin, b: Coin, c: Coin)
    requires Less(a, b) && Less(b, c)
    ensures Less(a, c)
  {
    if a.amount == b.amount == c.amount && a.id != b.id && b.id != c.id {
      StringLessTransitive(a.id, b.id, c.id);
      StringLessTotal(a.id, b.id);
      StringLessTotal(a.id, c.id);
    }
  }

  predicate Ascending(s: seq<Coin>) { forall i, j :: 0 <= i < j < |s| ==> Less(s[i], s[j]) }

  /** Where two different strings part. */
  predicate PartsAt(s: string, t: string, n: nat) {
    && n <= |s| && n < |t| && s[..n] == t[..n] && (n == |s| || s[n] < t[n])
  }

  lemma PartsHead(s: string, t: string, n: nat)
    requires PartsAt(s, t, n) && s != "" && t != ""
    ensures s[0] <= t[0]
  {
    if n > 0 { assert s[..n][0] == t[..n][0]; }
  }

  /** Byte by byte, a prefix first. */
  lemma {:induction false} StringLessIff(s: string, t: string)
    ensures StringLess(s, t) <==> exists n: nat :: PartsAt(s, t, n)
  {
    if t != "" && s == "" {
      assert PartsAt(s, t, 0);
    } else if t != "" {
      StringLessIff(s[1..], t[1..]);
      forall n: nat | PartsAt(s, t, n) ensures s[0] <= t[0] { PartsHead(s, t, n); }
      if s[0] < t[0] {
        assert PartsAt(s, t, 0);
      } else if s[0] == t[0] {
        if n: nat :| PartsAt(s[1..], t[1..], n) {
          assert s[..n + 1] == [s[0]] + s[1..][..n] && t[..n + 1] == [t[0]] + t[1..][..n];
          assert PartsAt(s, t, n + 1);
        }
        if n: nat :| PartsAt(s, t, n) {
          assert n > 0 && s[..n][1..] == s[1..][..n - 1] && t[..n][1..] == t[1..][..n - 1];
          assert PartsAt(s[1..], t[1..], n - 1);
        }
      }
    }
  }

  /** The ordered coins go from the smallest amount up, equal amounts by id, equal ids by
      output index. */
  lemma AscendingIff(s: seq<Coin>)
    ensures Ascending(s) <==>
              forall i, j :: 0 <= i < j < |s| ==>
                || s[i].amount < s[j].amount
                || (s[i].amount == s[j].amount && exists n: nat :: PartsAt(s[i].id, s[j].id, n))
                || (s[i].amount == s[j].amount && s[i].id == s[j].id && s[i].vout < s[j].vout)
  {
    hide StringLess, PartsAt;
    forall i, j | 0 <= i < j < |s|
      ensures StringLess(s[i].id, s[j].id) <==> exists n: nat :: PartsAt(s[i].id, s[j].id, n)
      ensures s[i].id == s[j].id ==> !StringLess(s[i].id, s[j].id)
    {
      StringLessIff(s[i].id, s[j].id);
      StringIrreflexive(s[i].id);
    }
  }

  // -------------------------------------------------------------------- sorting

  function Insert(s: seq<Coin>, c: Coin): (r: seq<Coin>)
    ensures |r| == |s| + 1
  {
    if s == [] || !Less(c, s[|s| - 1]) then s + [c]
    else Insert(s[..|s| - 1], c) + [s[|s| - 1]]
  }

  /** What sort.Slice computes with the comparison above. */
  function Sort(s: seq<Coin>): (r: seq<Coin>)
    ensures |r| == |s|
  {
    if s == [] then [] else Insert(Sort(s[..|s| - 1]), s[|s| - 1])
  }

  lemma {:induction false} InsertContents(s: seq<Coin>, c: Coin)
    ensures multiset(Insert(s, c)) == multiset(s) + multiset{c}
  {
    if s != [] && Less(c, s[|s| - 1]) {
      InsertContents(s[..|s| - 1], c);
      assert s == s[..|s| - 1] + [s[|s| - 1]];
    }
  }

  lemma {:induction false} SortContents(s: seq<Coin>)
    ensures multiset(Sort(s)) == multiset(s)
  {
    if s != [] {
      SortContents(s[..|s| - 1]);
      InsertContents(Sort(s[..|s| - 1]), s[|s| - 1]);
      assert s == s[..|s| - 1] + [s[|s| - 1]];
    }
  }

  lemma {:induction false} InsertAscending(s: seq<Coin>, c: Coin)
    requires Ascending(s) && c !in s
    ensures Ascending(Insert(s, c))
  {
    if s != [] {
      var last := s[|s| - 1];
      var init := s[..|s| - 1];
      LessTotal(last, c);
      if !Less(c, last) {
        forall i | 0 <= i < |s| ensures Less(s[i], c) {
          if i < |s| - 1 { LessTransitive(s[i], last, c); }
        }
      } else {
        InsertAscending(init, c);
        InsertContents(init, c);
        var r := Insert(init, c);
        forall i | 0 <= i < |r| ensures Less(r[i], last) {
          assert r[i] in multiset(r);
          if r[i] != c {
            assert r[i] in multiset(init);
            var k :| 0 <= k < |init| && init[k] == r[i];
            assert Less(s[k], s[|s| - 1]);
          }
        }
      }
    }
  }

  predicate Distinct(s: seq<Coin>) { forall i, j :: 0 <= i < j < |s| ==> s[i] != s[j] }

  lemma {:induction false} SortAscending(s: seq<Coin>)
    requires Distinct(s)
    ensures Ascending(Sort(s))
  {
    if s != [] {
      var init := s[..|s| - 1];
      SortAscending(init);
      SortContents(init);
      assert forall c :: c in Sort(init) ==> c in multiset(Sort(init));
      assert s[|s| - 1] !in init;
      InsertAscending(Sort(init), s[|s| - 1]);
    }
  }

  lemma SameGreatest(s: seq<Coin>, t: seq<Coin>)
    requires Ascending(s) && Ascending(t) && multiset(s) == multiset(t) && s != [] && t != []
    ensures s[|s| - 1] == t[|t| - 1]
    ensures multiset(s[..|s| - 1]) == multiset(t[..|t| - 1])
  {
    var a, b := s[|s| - 1], t[|t| - 1];
    assert b in multiset(t) && a in multiset(s);
    LessTotal(a, b);
    hide Less, Ascending;
    DropLastContents(s);
    DropLastContents(t);
  }

  lemma DropLastContents(s: seq<Coin>)
    requires s != []
    ensures multiset(s[..|s| - 1]) == multiset(s) - multiset{s[|s| - 1]}
  {
    assert s == s[..|s| - 1] + [s[|s| - 1]];
  }

  /** An ascending arrangement is unique: any sort, stable or not, gives this one. */
  lemma {:induction false} AscendingUnique(s: seq<Coin>, t: seq<Coin>)
    requires Ascending(s) && Ascending(t) && multiset(s) == multiset(t)
    ensures s == t
    decreases |s|
  {
    assert |s| == |multiset(s)| == |multiset(t)| == |t|;
    if s != [] {
      SameGreatest(s, t);
      AscendingUnique(s[..|s| - 1], t[..|t| - 1]);
      assert s == s[..|s| - 1] + [s[|s| - 1]] && t == t[..|t| - 1] + [t[|t| - 1]];
    }
  }

  // ----------------------------------------------------------- orderedP2QPKCoins

  /** The first complaint about a coin, in input order. */
  function Complaint(coins: seq<Coin>): Option<CoinError> {
    if coins == [] then None
    else
      var last := coins[|coins| - 1];
      var init := coins[..|coins| - 1];
      if Complaint(init).Some? then Complaint(init)
      else if last.amount <= 0 then Some(NonPositiveAmount)
      else if KeyIn(init, Key(last)) then Some(DuplicateUtxo)
      else None
  }

  predicate KeyIn(coins: seq<Coin>, key: string) { exists i :: 0 <= i < |coins| && Key(coins[i]) == key }

  function Ordered(coins: seq<Coin>): Result<seq<Coin>, CoinError> {
    if coins == [] then Err(NoUtxos)
    else if Complaint(coins).Some? then Err(Complaint(coins).value)
    else Ok(Sort(coins))
  }

  method OrderedP2QPKCoins(coins: seq<Coin>) returns (r: Result<seq<Coin>, CoinError>)
    ensures r == Ordered(coins)
  {
    if |coins| == 0 {
      return Err(NoUtxos);
    }
    var seen: set<string> := {};
    for i := 0 to |coins|
      invariant Complaint(coins[..i]).None?
      invariant forall key :: key in seen <==> KeyIn(coins[..i], key)
    {
      assert coins[..i + 1][..i] == coins[..i];
      ComplaintPrefix(coins, i + 1);
      if coins[i].amount <= 0 {
        return Err(NonPositiveAmount);
      }
      var key := Key(coins[i]);
      if key in seen {
        return Err(DuplicateUtxo);
      }
      forall k
        ensures k in seen + {key} <==> KeyIn(coins[..i + 1], k)
      {
        assert coins[..i + 1] == coins[..i] + [coins[i]];
      }
      seen := seen + {key};
    }
    assert coins[..|coins|] == coins;
    return Ok(Sort(coins));
  }

  lemma {:induction false} ComplaintPrefix(coins: seq<Coin>, n: nat)
    requires n <= |coins|
    ensures Complaint(coins[..n]).Some? ==> Complaint(coins) == Complaint(coins[..n])
    decreases |coins| - n
  {
    if n == |coins| {
      assert coins[..n] == coins;
    } else {
      ComplaintPrefix(coins, n + 1);
      assert coins[..n + 1][..n] == coins[..n];
    }
  }

  /** Every coin positive and no outpoint twice. */
  predicate Sound(coins: seq<Coin>) {
    && (forall i :: 0 <= i < |coins| ==> coins[i].amount > 0)
    && forall i, j :: 0 <= i < j < |coins| ==> coins[i].id != coins[j].id || coins[i].vout != coins[j].vout
  }

  predicate SameOutpoint(a: Coin, b: Coin) { a.id == b.id && a.vout == b.vout }

  lemma KeyInIff(coins: seq<Coin>, c: Coin)
    ensures KeyIn(coins, Key(c)) <==> exists i :: 0 <= i < |coins| && SameOutpoint(coins[i], c)
  {
    hide Key;
    forall i | 0 <= i < |coins| ensures Key(coins[i]) == Key(c) <==> SameOutpoint(coins[i], c) {
      KeyInjective(coins[i], c);
    }
  }

  lemma SoundLast(coins: seq<Coin>)
    requires coins != []
    ensures var init, last := coins[..|coins| - 1], coins[|coins| - 1];
            Sound(coins) <==> Sound(init) && last.amount > 0 && !exists i :: 0 <= i < |init| && SameOutpoint(init[i], last)
  {
    var init, last := coins[..|coins| - 1], coins[|coins| - 1];
    assert forall i :: 0 <= i < |init| ==> init[i] == coins[i];
    if Sound(coins) {
      forall i | 0 <= i < |init| ensures !SameOutpoint(init[i], last) {
        assert coins[i].id != coins[|init|].id || coins[i].vout != coins[|init|].vout;
      }
    }
  }

  lemma {:induction false} NoComplaintIff(coins: seq<Coin>)
    ensures Complaint(coins).None? <==> Sound(coins)
  {
    hide Key, KeyIn;
    if coins != [] {
      var init, last := coins[..|coins| - 1], coins[|coins| - 1];
      NoComplaintIff(init);
      KeyInIff(init, last);
      SoundLast(coins);
      hide Sound, SameOutpoint;
    }
  }

  /** A complaint is about the first coin that is not positive or repeats an outpoint. */
  lemma {:induction false} ComplaintMeans(coins: seq<Coin>)
    requires Complaint(coins).Some?
    ensures exists i :: 0 <= i < |coins| && Sound(coins[..i])
              && ((Complaint(coins) == Some(NonPositiveAmount) && coins[i].amount <= 0)
                  || (Complaint(coins) == Some(DuplicateUtxo) && coins[i].amount > 0 && exists j :: 0 <= j < i && SameOutpoint(coins[j], coins[i])))
  {
    hide Sound, SameOutpoint, Key, KeyIn;
    var init := coins[..|coins| - 1];
    if Complaint(init).Some? {
      ComplaintMeans(init);
      var i :| 0 <= i < |init| && Sound(init[..i])
              && ((Complaint(init) == Some(NonPositiveAmount) && init[i].amount <= 0)
                  || (Complaint(init) == Some(DuplicateUtxo) && init[i].amount > 0 && exists j :: 0 <= j < i && SameOutpoint(init[j], init[i])));
      assert coins[..i] == init[..i] && forall j :: 0 <= j <= i ==> coins[j] == init[j];
    } else {
      NoComplaintIff(init);
      KeyInIff(init, coins[|coins| - 1]);
      assert coins[..|coins| - 1] == init && forall j :: 0 <= j < |init| ==> coins[j] == init[j];
    }
  }

  /** The ordered coins are the given ones, ascending; the call succeeds on exactly
      the sound, non-empty inputs. */
  lemma OrderedSound(coins: seq<Coin>)
    ensures Ordered(coins).Ok? <==> coins != [] && Sound(coins)
    ensures Ordered(coins).Ok? ==>
              Ascending(Ordered(coins).value) && multiset(Ordered(coins).value) == multiset(coins)
  {
    NoComplaintIff(coins);
    SortContents(coins);
    if Sound(coins) {
      SortAscending(coins);
    }
  }

  /** The order of the input does not matter. */
  lemma OrderedCanonical(coins: seq<Coin>, permuted: seq<Coin>)
    requires multiset(coins) == multiset(permuted)
    ensures Ordered(coins).Ok? <==> Ordered(permuted).Ok?
    ensures Ordered(coins).Ok? ==> Ordered(coins) == Ordered(permuted)
  {
    OrderedSound(coins);
    OrderedSound(permuted);
    if Sound(coins) {
      SoundPermutes(coins, permuted);
    }
    if Sound(permuted) {
      SoundPermutes(permuted, coins);
    }
    assert |multiset(coins)| == |coins| && |multiset(permuted)| == |permuted|;
    if Ordered(coins).Ok? {
      AscendingUnique(Ordered(coins).value, Ordered(permuted).value);
    }
  }

  lemma SoundPermutes(coins: seq<Coin>, permuted: seq<Coin>)
    requires multiset(coins) == multiset(permuted) && Sound(coins)
    ensures Sound(permuted)
  {
    forall i | 0 <= i < |permuted| ensures permuted[i].amount > 0 {
      assert permuted[i] in multiset(coins);
    }
    forall i, j | 0 <= i < j < |permuted|
      ensures permuted[i].id != permuted[j].id || permuted[i].vout != permuted[j].vout
    {
      var a, b := permuted[i], permuted[j];
      assert a in multiset(coins) && b in multiset(coins);
      if a == b {
        TwiceInMultiset(permuted, i, j);
        DistinctOnce(coins, a);
      }
    }
  }

  lemma TwiceInMultiset(s: seq<Coin>, i: nat, j: nat)
    requires i < j < |s| && s[i] == s[j]
    ensures multiset(s)[s[i]] >= 2
  {
    assert s == s[..i] + [s[i]] + s[i + 1..j] + [s[j]] + s[j + 1..];
  }

  lemma {:induction false} DistinctOnce(s: seq<Coin>, c: Coin)
    requires Distinct(s)
    ensures multiset(s)[c] <= 1
  {
    if s != [] {
      DistinctOnce(s[1..], c);
      assert s == [s[0]] + s[1..];
      if s[0] == c { assert c !in s[1..]; }
    }
  }
}
