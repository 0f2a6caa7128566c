/** The duration parser: a string of `<digits><unit>` tokens, with the four
    Cyrillic unit letters н (weeks), д (days), ч (hours) and м (minutes), becomes
    a duration. Durations are total minutes. */
module Duration {
  import opened Wrappers
  import opened CustomFields

  datatype Unit = Weeks | Days | Hours | Minutes

  /** The unit letter table; any other character is not a unit. */
  function UnitOf(c: char): Option<Unit>
  {
    if c == 'н' then Some(Weeks)
    else if c == 'д' then Some(Days)
    else if c == 'ч' then Some(Hours)
    else if c == 'м' then Some(Minutes)
    else None
  }

  function MinutesPer(u: Unit): nat
  {
    match u
    case Weeks => 7 * 24 * 60
    case Days => 24 * 60
    case Hours => 60
    case Minutes => 1
  }

  predicate IsDigit(c: char)
  {
    '0' <= c <= '9'
  }

  predicate AllDigits(s: string)
  {
    forall k :: 0 <= k < |s| ==> IsDigit(s[k])
  }

  function DigitValue(c: char): nat
    requires IsDigit(c)
  {
    c as int - '0' as int
  }

  /** The value of a run of decimal digits, as `int(amount)` computes it. */
  function DecimalValue(ds: string): nat
    requires AllDigits(ds)
  {
    if |ds| == 0 then 0
    else 10 * DecimalValue(ds[..|ds| - 1]) + DigitValue(ds[|ds| - 1])
  }

  /** The decimal rendering of `n`; `DecimalValue` reads it back. */
  function Decimal(n: nat): (ds: string)
    ensures |ds| > 0 && AllDigits(ds)
    ensures DecimalValue(ds) == n
  {
    if n < 10 then [('0' as int + n) as char]
    else
      var prefix := Decimal(n / 10);
      var ds := prefix + [('0' as int + n % 10) as char];
      assert ds[..|ds| - 1] == prefix;
      ds
  }

  /** End of the longest run of digits that starts at `i`. */
  function DigitRunEnd(s: string, i: nat): (j: nat)
    requires i <= |s|
    ensures i <= j <= |s|
    ensures forall k :: i <= k < j ==> IsDigit(s[k])
    ensures j == |s| || !IsDigit(s[j])
    decreases |s| - i
  {
    if i < |s| && IsDigit(s[i]) then DigitRunEnd(s, i + 1) else i
  }

  /** The digit run starting at `i` is immediately followed by a unit letter. */
  predicate FollowedByUnit(s: string, i: nat)
    requires i <= |s|
  {
    var j := DigitRunEnd(s, i);
    j < |s| && UnitOf(s[j]).Some?
  }

  /** A run of decimal digits, as the `(\d+)` group captures it. */
  type DigitString = ds: string | AllDigits(ds) witness ""

  /** One `(amount, unit)` pair of `findall`: the captured digits and the unit letter. */
  datatype Match = Match(digits: DigitString, unit: Unit)

  /** One entry of `time_kwargs`: the unit and `int(amount)`. */
  datatype Token = Token(amount: nat, unit: Unit)

  /** `int(amount)` applied to one match. */
  function ToToken(m: Match): Token
  {
    Token(DecimalValue(m.digits), m.unit)
  }

  /** Every match of the search converted by `int(amount)`, in order. */
  function Amounts(ms: seq<Match>): seq<Token>
  {
    seq(|ms|, k requires 0 <= k < |ms| => ToToken(ms[k]))
  }

  /** The match whose digits start at `i`. */
  function MatchAt(s: string, i: nat): Match
    requires i <= |s| && FollowedByUnit(s, i)
  {
    var j := DigitRunEnd(s, i);
    Match(s[i..j], UnitOf(s[j]).value)
  }

  /** The pattern matches at `i`: a digit whose longest run is followed by a unit letter. */
  predicate MatchesAt(s: string, i: nat)
    requires i < |s|
  {
    IsDigit(s[i]) && FollowedByUnit(s, i)
  }

  /** What one step of the search at `i` contributes. */
  function Emitted(s: string, i: nat): seq<Match>
    requires i < |s|
  {
    if MatchesAt(s, i) then [MatchAt(s, i)] else []
  }

  /** Where the search resumes after position `i`: after the unit letter on a
      match, otherwise one position further on. */
  function NextPos(s: string, i: nat): (n: nat)
    requires i < |s|
    ensures i < n <= |s|
  {
    if MatchesAt(s, i) then DigitRunEnd(s, i) + 1 else i + 1
  }

  /** The search `findall` performs for `(\d+)([ндчм])`: at a digit, take the longest
      digit run; if a unit letter follows, emit a match and resume after the letter,
      otherwise (and at any other character) move on by one position. */
  function ScanFrom(s: string, i: nat): seq<Match>
    requires i <= |s|
    decreases |s| - i
  {
    if i == |s| then [] else Emitted(s, i) + ScanFrom(s, NextPos(s, i))
  }

  /** `time_pattern.findall(time_string)`. */
  function Matches(s: string): seq<Match>
  {
    ScanFrom(s, 0)
  }

  /** The pairs the assignment loop sees, with `int(amount)` applied. */
  function Tokens(s: string): seq<Token>
  {
    Amounts(Matches(s))
  }

  /** Reference reading of the pattern, position by position: a match starts
      wherever a maximal digit run (one not preceded by a digit) is immediately
      followed by a unit letter. */
  predicate MatchStartsAt(s: string, i: nat)
    requires i < |s|
  {
    IsDigit(s[i]) && (i == 0 || !IsDigit(s[i - 1])) && FollowedByUnit(s, i)
  }

  function RefMatchesFrom(s: string, i: nat): seq<Match>
    requires i <= |s|
    decreases |s| - i
  {
    if i == |s| then []
    else (if MatchStartsAt(s, i) then [MatchAt(s, i)] else []) + RefMatchesFrom(s, i + 1)
  }

  /** The dictionary `time_kwargs` built by assigning each token's amount to its
      unit, in order, starting from `acc`. */
  function Assign(acc: map<Unit, nat>, ts: seq<Token>): (m: map<Unit, nat>)
    ensures forall u :: u in m <==> u in acc || Mentions(ts, u)
    ensures forall u :: u in acc && !Mentions(ts, u) ==> m[u] == acc[u]
    decreases |ts|
  {
    if |ts| == 0 then acc
    else Assign(acc[ts[0].unit := ts[0].amount], ts[1..])
  }

  /** Some token of `ts` has unit `u`. */
  predicate Mentions(ts: seq<Token>, u: Unit)
  {
    exists k :: 0 <= k < |ts| && ts[k].unit == u
  }

  function Collect(ts: seq<Token>): map<Unit, nat>
  {
    Assign(map[], ts)
  }

  /** Reference reading of "last occurrence wins": the amount of the last token
      with unit `u`, or 0 when there is none. */
  function LastAmount(ts: seq<Token>, u: Unit): nat
    decreases |ts|
  {
    if |ts| == 0 then 0
    else if ts[|ts| - 1].unit == u then ts[|ts| - 1].amount
    else LastAmount(ts[..|ts| - 1], u)
  }

  function AmountOr0(m: map<Unit, nat>, u: Unit): nat
  {
    if u in m then m[u] else 0
  }

  /** `timedelta(**time_kwargs)` in minutes: units not mentioned count as 0. */
  function TotalMinutes(m: map<Unit, nat>): nat
  {
    MinutesPer(Weeks) * AmountOr0(m, Weeks) + MinutesPer(Days) * AmountOr0(m, Days)
    + MinutesPer(Hours) * AmountOr0(m, Hours) + MinutesPer(Minutes) * AmountOr0(m, Minutes)
  }

  /** The weighted sum over the last amount of every unit. */
  function WeightedLast(ts: seq<Token>): nat
  {
    MinutesPer(Weeks) * LastAmount(ts, Weeks) + MinutesPer(Days) * LastAmount(ts, Days)
    + MinutesPer(Hours) * LastAmount(ts, Hours) + MinutesPer(Minutes) * LastAmount(ts, Minutes)
  }

  /** `parse_time_string` on a string: the empty string is the zero duration. */
  function ParseTimeString(s: string): (minutes: nat)
    ensures |s| == 0 ==> minutes == 0
  {
    if |s| == 0 then 0 else TotalMinutes(Collect(Tokens(s)))
  }

  /** The exception `re.findall` raises when handed something that is not a string. */
  datatype ParseError = NotAString(value: FieldValue)

  /** `parse_time_string` on the value the custom-field lookup produced: a falsy
      value (`None`, `""`, `0`) is the zero duration, a string is parsed, and any
      other truthy value makes `re.findall` raise. */
  function ParseTimeValue(v: Option<FieldValue>): (r: Result<nat, ParseError>)
    ensures v.None? || v == Some(Null) || v == Some(Str("")) || v == Some(Int(0)) ==> r == Success(0)
    ensures forall s :: v == Some(Str(s)) ==> r == Success(ParseTimeString(s))
    ensures r.Failure? <==> v.Some? && (v.value.Obj? || (v.value.Int? && v.value.i != 0))
  {
    match v
    case None => Success(0)
    case Some(Null) => Success(0)
    case Some(Str(s)) => Success(ParseTimeString(s))
    case Some(Int(n)) => if n == 0 then Success(0) else Failure(NotAString(Int(n)))
    case Some(Obj(_, _)) => Failure(NotAString(v.value))
  }

  // ---------------------------------------------------------------------------
  // Tokenizer lemmas

  lemma UnitIsNotDigit(c: char)
    requires UnitOf(c).Some?
    ensures !IsDigit(c)
  {
  }

  /** The digit run starting one position later inside the same run ends at the same place. */
  lemma DigitRunEndStep(s: string, i: nat)
    requires i < |s| && IsDigit(s[i])
    ensures DigitRunEnd(s, i) == DigitRunEnd(s, i + 1)
  {
  }

  /** A digit run that is known to stop at `j` ends at `j`. */
  lemma {:induction false} DigitRunEndIs(s: string, i: nat, j: nat)
    requires i <= j <= |s|
    requires forall k :: i <= k < j ==> IsDigit(s[k])
    requires j == |s| || !IsDigit(s[j])
    ensures DigitRunEnd(s, i) == j
    decreases j - i
  {
    if i < j {
      DigitRunEndIs(s, i + 1, j);
    }
  }

  /** No token starts strictly inside a token's digits or at its unit letter. */
  lemma {:induction false} RefSkipsToken(s: string, i: nat, k: nat)
    requires i < |s| && IsDigit(s[i]) && FollowedByUnit(s, i)
    requires i < k <= DigitRunEnd(s, i) + 1 <= |s|
    ensures RefMatchesFrom(s, k) == RefMatchesFrom(s, DigitRunEnd(s, i) + 1)
    decreases DigitRunEnd(s, i) + 1 - k
  {
    var j := DigitRunEnd(s, i);
    if k <= j {
      if k < j {
        assert IsDigit(s[k - 1]);
      } else {
        UnitIsNotDigit(s[j]);
      }
      assert !MatchStartsAt(s, k);
      RefSkipsToken(s, i, k + 1);
    }
  }

  /** Where the search may stand: at the start, at the end, after a non-digit,
      at a non-digit, or inside a digit run no unit letter follows. */
  predicate ScanPosition(s: string, i: nat)
    requires i <= |s|
  {
    i == 0 || i == |s| || !IsDigit(s[i - 1]) || !IsDigit(s[i]) || !FollowedByUnit(s, i)
  }

  /** After a match the search resumes just past the unit letter, which is a
      search position because the letter is not a digit. */
  lemma MatchResumes(s: string, i: nat)
    requires i < |s| && MatchesAt(s, i)
    ensures NextPos(s, i) == DigitRunEnd(s, i) + 1 <= |s|
    ensures ScanPosition(s, NextPos(s, i))
  {
    UnitIsNotDigit(s[DigitRunEnd(s, i)]);
  }

  /** A match at a search position: both readings emit the token there and go on
      after its unit letter; so they agree at `i` when they agree there. */
  lemma MatchStep(s: string, i: nat)
    requires i < |s| && ScanPosition(s, i) && MatchesAt(s, i)
    ensures ScanPosition(s, NextPos(s, i))
    ensures ScanFrom(s, NextPos(s, i)) == RefMatchesFrom(s, NextPos(s, i)) ==>
              ScanFrom(s, i) == RefMatchesFrom(s, i)
  {
    MatchResumes(s, i);
    var n := NextPos(s, i);
    assert MatchStartsAt(s, i);
    RefSkipsToken(s, i, i + 1);
  }

  /** No match at a search position: both readings emit nothing there and go on
      at the next position, which is again a search position. */
  lemma NoMatchStep(s: string, i: nat)
    requires i < |s| && ScanPosition(s, i) && !MatchesAt(s, i)
    ensures ScanPosition(s, i + 1)
    ensures ScanFrom(s, i + 1) == RefMatchesFrom(s, i + 1) ==> ScanFrom(s, i) == RefMatchesFrom(s, i)
  {
    assert !MatchStartsAt(s, i);
    if IsDigit(s[i]) && i + 1 < |s| && IsDigit(s[i + 1]) {
      DigitRunEndStep(s, i);
    }
  }

  /** One step of the search from a search position leads to a search position,
      and the two readings agree at `i` when they agree from where it resumes. */
  lemma ScanStep(s: string, i: nat)
    requires i < |s| && ScanPosition(s, i)
    ensures ScanPosition(s, NextPos(s, i))
    ensures ScanFrom(s, NextPos(s, i)) == RefMatchesFrom(s, NextPos(s, i)) ==>
              ScanFrom(s, i) == RefMatchesFrom(s, i)
  {
    if MatchesAt(s, i) {
      MatchStep(s, i);
    } else {
      NoMatchStep(s, i);
    }
  }

  lemma {:induction false} ScanMatchesRefFrom(s: string, i: nat)
    requires i <= |s| && ScanPosition(s, i)
    ensures ScanFrom(s, i) == RefMatchesFrom(s, i)
    decreases |s| - i
  {
    if i < |s| {
      ScanStep(s, i);
      ScanMatchesRefFrom(s, NextPos(s, i));
    }
  }

  /** The search finds exactly the tokens of the position-by-position reading,
      in order of position. */
  lemma SearchMatchesReference(s: string)
    ensures Matches(s) == RefMatchesFrom(s, 0)
    ensures Tokens(s) == Amounts(RefMatchesFrom(s, 0))
  {
    ScanMatchesRefFrom(s, 0);
  }

  /** Converting matches commutes with concatenation. */
  lemma AmountsAppend(a: seq<Match>, b: seq<Match>)
    ensures Amounts(a + b) == Amounts(a) + Amounts(b)
  {
    assert forall k :: 0 <= k < |a + b| ==> Amounts(a + b)[k] == (Amounts(a) + Amounts(b))[k];
  }

  /** A digit run inside the suffix ends at the same place, shifted by the prefix. */
  lemma DigitRunEndShift(p: string, s: string, k: nat)
    requires k <= |s|
    ensures DigitRunEnd(p + s, |p| + k) == |p| + DigitRunEnd(s, k)
  {
    var ps := p + s;
    var j := DigitRunEnd(s, k);
    if j < |s| {
      assert ps[|p| + j] == s[j];
    }
    forall m | |p| + k <= m < |p| + j
      ensures IsDigit(ps[m])
    {
      assert ps[m] == s[m - |p|];
    }
    DigitRunEndIs(ps, |p| + k, |p| + j);
  }

  /** One search step inside the suffix does what the same step does on the
      suffix alone. */
  lemma ShiftStep(p: string, s: string, k: nat)
    requires k < |s|
    ensures Emitted(p + s, |p| + k) == Emitted(s, k)
    ensures NextPos(p + s, |p| + k) == |p| + NextPos(s, k)
  {
    var ps := p + s;
    var i := |p| + k;
    assert ps[i] == s[k];
    var j := DigitRunEnd(s, k);
    DigitRunEndShift(p, s, k);
    if j < |s| {
      assert ps[|p| + j] == s[j];
    }
    if MatchesAt(s, k) {
      assert ps[i..|p| + j] == s[k..j];
    }
  }

  /** Scanning a suffix behaves the same whatever precedes it, once the scan
      has reached the suffix. */
  lemma {:induction false} ScanShift(p: string, s: string, k: nat)
    requires k <= |s|
    ensures ScanFrom(p + s, |p| + k) == ScanFrom(s, k)
    decreases |s| - k
  {
    if k < |s| {
      var n := NextPos(s, k);
      ShiftStep(p, s, k);
      ScanShift(p, s, n);
    }
  }

  /** One search step inside a prefix that does not end in a digit does what the
      same step does on the prefix alone. */
  lemma PrefixStep(t: string, s: string, i: nat)
    requires i < |t|
    requires !IsDigit(t[|t| - 1])
    ensures Emitted(t + s, i) == Emitted(t, i)
    ensures NextPos(t + s, i) == NextPos(t, i)
  {
    var ts := t + s;
    assert ts[i] == t[i];
    if IsDigit(t[i]) {
      var j := DigitRunEnd(t, i);
      assert j < |t|;
      assert ts[j] == t[j];
      DigitRunEndIs(ts, i, j);
      assert ts[i..j] == t[i..j];
    }
  }

  /** Inside a prefix that does not end in a digit, the scan of `t + s` sees only `t`. */
  lemma {:induction false} ScanPrefix(t: string, s: string, i: nat)
    requires i <= |t|
    requires |t| == 0 || !IsDigit(t[|t| - 1])
    ensures ScanFrom(t + s, i) == ScanFrom(t, i) + ScanFrom(s, 0)
    decreases |t| - i
  {
    if i == |t| {
      ScanShift(t, s, 0);
      assert ScanFrom(t, i) == [];
    } else {
      PrefixStep(t, s, i);
      ScanPrefix(t, s, NextPos(t, i));
      assert Emitted(t, i) + (ScanFrom(t, NextPos(t, i)) + ScanFrom(s, 0))
          == (Emitted(t, i) + ScanFrom(t, NextPos(t, i))) + ScanFrom(s, 0);
    }
  }

  /** Text that ends in a non-digit is a match boundary: the matches, and so the
      tokens, of a concatenation are those of its parts. */
  lemma TokensAppend(t: string, s: string)
    requires |t| == 0 || !IsDigit(t[|t| - 1])
    ensures Matches(t + s) == Matches(t) + Matches(s)
    ensures Tokens(t + s) == Tokens(t) + Tokens(s)
  {
    ScanPrefix(t, s, 0);
    AmountsAppend(Matches(t), Matches(s));
  }

  /** A non-digit character in front of the text is ignored. */
  lemma LeadingNonDigitIgnored(c: char, s: string)
    requires !IsDigit(c)
    ensures Matches([c] + s) == Matches(s)
    ensures Tokens([c] + s) == Tokens(s)
  {
    TokensAppend([c], s);
    assert ScanFrom([c], 1) == [];
    assert Matches([c]) == [];
  }

  /** A number followed by a unit letter is exactly one token. */
  lemma SingleToken(n: nat, c: char)
    requires UnitOf(c).Some?
    ensures Matches(Decimal(n) + [c]) == [Match(Decimal(n), UnitOf(c).value)]
    ensures Tokens(Decimal(n) + [c]) == [Token(n, UnitOf(c).value)]
  {
    var ds := Decimal(n);
    var s := ds + [c];
    UnitIsNotDigit(c);
    assert s[|ds|] == c;
    forall k | 0 <= k < |ds|
      ensures IsDigit(s[k])
    {
      assert s[k] == ds[k];
    }
    DigitRunEndIs(s, 0, |ds|);
    assert s[0..|ds|] == ds;
    assert IsDigit(s[0]) && FollowedByUnit(s, 0);
    assert MatchAt(s, 0) == Match(ds, UnitOf(c).value);
    assert ScanFrom(s, |ds| + 1) == [];
    assert Matches(s) == [Match(ds, UnitOf(c).value)];
  }

  /** A number followed by a character that is neither a unit letter nor a digit
      yields nothing. */
  lemma NumberWithoutUnit(n: nat, c: char)
    requires UnitOf(c).None? && !IsDigit(c)
    ensures Matches(Decimal(n) + [c]) == []
    ensures Tokens(Decimal(n) + [c]) == []
  {
    var ds := Decimal(n);
    var s := ds + [c];
    assert s[|ds|] == c;
    forall k | 0 <= k < |s|
      ensures DigitRunEnd(s, k) == |ds|
    {
      forall m | k <= m < |ds|
        ensures IsDigit(s[m])
      {
        assert s[m] == ds[m];
      }
      if k < |s| - 1 {
        DigitRunEndIs(s, k, |ds|);
      }
    }
    NoTokensFrom(s, 0);
  }

  lemma {:induction false} NoTokensFrom(s: string, i: nat)
    requires 0 < |s| && i <= |s|
    requires forall k :: 0 <= k < |s| ==> DigitRunEnd(s, k) == |s| - 1
    requires UnitOf(s[|s| - 1]).None?
    ensures ScanFrom(s, i) == []
    decreases |s| - i
  {
    if i < |s| {
      assert !FollowedByUnit(s, i);
      NoTokensFrom(s, i + 1);
    }
  }

  // ---------------------------------------------------------------------------
  // Last occurrence wins

  /** Assigning more tokens keeps the amount of the last token with unit `u`,
      or leaves `acc` untouched at `u` when no token has that unit. */
  lemma {:induction false} AssignKeepsLast(acc: map<Unit, nat>, ts: seq<Token>, u: Unit)
    ensures u in Assign(acc, ts) <==> u in acc || exists k :: 0 <= k < |ts| && ts[k].unit == u
    ensures AmountOr0(Assign(acc, ts), u)
         == if exists k :: 0 <= k < |ts| && ts[k].unit == u then LastAmount(ts, u) else AmountOr0(acc, u)
    decreases |ts|
  {
    if |ts| > 0 {
      var acc' := acc[ts[0].unit := ts[0].amount];
      AssignKeepsLast(acc', ts[1..], u);
      LastAmountFront(ts, u);
      if exists k :: 0 <= k < |ts[1..]| && ts[1..][k].unit == u {
        var k :| 0 <= k < |ts[1..]| && ts[1..][k].unit == u;
        assert ts[k + 1].unit == u;
      } else if ts[0].unit != u {
        forall k | 0 <= k < |ts|
          ensures ts[k].unit != u
        {
          if k > 0 {
            assert ts[1..][k - 1] == ts[k];
          }
        }
      }
    }
  }

  /** `LastAmount` seen from the front: the tail decides unless it has no token of unit `u`. */
  lemma {:induction false} LastAmountFront(ts: seq<Token>, u: Unit)
    requires |ts| > 0
    ensures LastAmount(ts, u)
         == if exists k :: 0 <= k < |ts[1..]| && ts[1..][k].unit == u then LastAmount(ts[1..], u)
            else if ts[0].unit == u then ts[0].amount
            else 0
    decreases |ts|
  {
    var tail := ts[1..];
    if |ts| == 1 {
      assert tail == [];
    } else {
      var init := ts[..|ts| - 1];
      assert init[1..] == tail[..|tail| - 1];
      assert tail[|tail| - 1] == ts[|ts| - 1];
      LastAmountFront(init, u);
      if ts[|ts| - 1].unit != u {
        if exists k :: 0 <= k < |tail| && tail[k].unit == u {
          var k :| 0 <= k < |tail| && tail[k].unit == u;
          assert k < |tail| - 1;
          assert init[1..][k] == tail[k];
        } else {
          forall k | 0 <= k < |init[1..]|
            ensures init[1..][k].unit != u
          {
            assert init[1..][k] == tail[k];
          }
        }
      } else {
        assert tail[|tail| - 1].unit == u;
      }
    }
  }

  /** The dictionary fold agrees with the last-occurrence reading for every unit. */
  lemma CollectIsLastAmount(ts: seq<Token>, u: Unit)
    ensures AmountOr0(Collect(ts), u) == LastAmount(ts, u)
  {
    AssignKeepsLast(map[], ts, u);
    if !exists k :: 0 <= k < |ts| && ts[k].unit == u {
      LastAmountAbsent(ts, u);
    }
  }

  lemma {:induction false} LastAmountAbsent(ts: seq<Token>, u: Unit)
    requires forall k :: 0 <= k < |ts| ==> ts[k].unit != u
    ensures LastAmount(ts, u) == 0
    decreases |ts|
  {
    if |ts| > 0 {
      LastAmountAbsent(ts[..|ts| - 1], u);
    }
  }

  /** The token at the latest position for its unit decides that unit's amount. */
  lemma LastOccurrenceWins(ts: seq<Token>, k: nat)
    requires k < |ts|
    requires forall m :: k < m < |ts| ==> ts[m].unit != ts[k].unit
    ensures ts[k].unit in Collect(ts) && Collect(ts)[ts[k].unit] == ts[k].amount
  {
    var u := ts[k].unit;
    AssignKeepsLast(map[], ts, u);
    LastAmountAt(ts, k);
  }

  lemma {:induction false} LastAmountAt(ts: seq<Token>, k: nat)
    requires k < |ts|
    requires forall m :: k < m < |ts| ==> ts[m].unit != ts[k].unit
    ensures LastAmount(ts, ts[k].unit) == ts[k].amount
    decreases |ts|
  {
    if k < |ts| - 1 {
      LastAmountAt(ts[..|ts| - 1], k);
    }
  }

  // ---------------------------------------------------------------------------
  // The parser as a whole

  /** The parser agrees with the reference reading: weeks·7 days + days + hours +
      minutes, each taken from the last token of that unit found position by position. */
  lemma ParseTimeStringIsWeightedLast(s: string)
    ensures ParseTimeString(s) == WeightedLast(Amounts(RefMatchesFrom(s, 0)))
  {
    SearchMatchesReference(s);
    var ts := Tokens(s);
    CollectIsLastAmount(ts, Weeks);
    CollectIsLastAmount(ts, Days);
    CollectIsLastAmount(ts, Hours);
    CollectIsLastAmount(ts, Minutes);
    if |s| == 0 {
      assert RefMatchesFrom(s, 0) == [];
    }
  }

  /** Once the tokens are known, the duration is their last-occurrence weighted sum. */
  lemma ParseFromTokens(s: string, ts: seq<Token>)
    requires |s| > 0 && Tokens(s) == ts
    ensures ParseTimeString(s) == WeightedLast(ts)
  {
    CollectIsLastAmount(ts, Weeks);
    CollectIsLastAmount(ts, Days);
    CollectIsLastAmount(ts, Hours);
    CollectIsLastAmount(ts, Minutes);
  }

  /** The last amount of a unit in one or two tokens. */
  lemma LastAmountOfTwo(t0: Token, t1: Token, u: Unit)
    ensures LastAmount([t1], u) == if t1.unit == u then t1.amount else 0
    ensures LastAmount([t0, t1], u) == if t1.unit == u then t1.amount else if t0.unit == u then t0.amount else 0
  {
    assert [t0, t1][..1] == [t0];
    assert [t1][..0] == [] && [t0][..0] == [];
  }

  /** The weighted sum for one or two tokens. */
  lemma WeightedLastOfTwo(t0: Token, t1: Token)
    ensures WeightedLast([t1]) == t1.amount * MinutesPer(t1.unit)
    ensures t0.unit == t1.unit ==> WeightedLast([t0, t1]) == t1.amount * MinutesPer(t1.unit)
    ensures t0.unit != t1.unit ==>
              WeightedLast([t0, t1]) == t1.amount * MinutesPer(t1.unit) + t0.amount * MinutesPer(t0.unit)
  {
    LastAmountOfTwo(t0, t1, Weeks);
    LastAmountOfTwo(t0, t1, Days);
    LastAmountOfTwo(t0, t1, Hours);
    LastAmountOfTwo(t0, t1, Minutes);
  }

  /** `n` followed by a unit letter is `n` of that unit. */
  lemma SingleTokenDuration(n: nat, c: char)
    requires UnitOf(c).Some?
    ensures ParseTimeString(Decimal(n) + [c]) == n * MinutesPer(UnitOf(c).value)
  {
    var t := Token(n, UnitOf(c).value);
    SingleToken(n, c);
    ParseFromTokens(Decimal(n) + [c], [t]);
    WeightedLastOfTwo(t, t);
  }

  /** Two number-and-unit tokens in a row. */
  lemma TwoTokens(a: nat, c: char, b: nat, d: char)
    requires UnitOf(c).Some? && UnitOf(d).Some?
    ensures Tokens(Decimal(a) + [c] + Decimal(b) + [d]) == [Token(a, UnitOf(c).value), Token(b, UnitOf(d).value)]
  {
    var t := Decimal(a) + [c];
    var r := Decimal(b) + [d];
    UnitIsNotDigit(c);
    assert t[|t| - 1] == c;
    TokensAppend(t, r);
    SingleToken(a, c);
    SingleToken(b, d);
    assert Decimal(a) + [c] + Decimal(b) + [d] == t + r;
  }

  /** A repeated unit is not summed: the second amount replaces the first. */
  lemma RepeatedUnitLastWins(a: nat, b: nat, c: char)
    requires UnitOf(c).Some?
    ensures ParseTimeString(Decimal(a) + [c] + Decimal(b) + [c]) == b * MinutesPer(UnitOf(c).value)
  {
    var ts := [Token(a, UnitOf(c).value), Token(b, UnitOf(c).value)];
    TwoTokens(a, c, b, c);
    ParseFromTokens(Decimal(a) + [c] + Decimal(b) + [c], ts);
    WeightedLastOfTwo(ts[0], ts[1]);
  }

  /** Tokens of different units add up. */
  lemma DistinctUnitsAdd(a: nat, c: char, b: nat, d: char)
    requires UnitOf(c).Some? && UnitOf(d).Some? && UnitOf(c) != UnitOf(d)
    ensures ParseTimeString(Decimal(a) + [c] + Decimal(b) + [d])
         == a * MinutesPer(UnitOf(c).value) + b * MinutesPer(UnitOf(d).value)
  {
    var ts := [Token(a, UnitOf(c).value), Token(b, UnitOf(d).value)];
    TwoTokens(a, c, b, d);
    ParseFromTokens(Decimal(a) + [c] + Decimal(b) + [d], ts);
    WeightedLastOfTwo(ts[0], ts[1]);
  }

  /** "2д3ч" is two days and three hours. */
  lemma DaysAndHoursExample()
    ensures ParseTimeString("2д3ч") == 2 * 24 * 60 + 3 * 60
  {
    assert Decimal(2) == "2" && Decimal(3) == "3";
    assert "2д3ч" == Decimal(2) + ['д'] + Decimal(3) + ['ч'];
    DistinctUnitsAdd(2, 'д', 3, 'ч');
  }

  /** "5ч5ч" is five hours, not ten. */
  lemma RepeatedHoursExample()
    ensures ParseTimeString("5ч5ч") == 5 * 60
  {
    assert Decimal(5) == "5";
    assert "5ч5ч" == Decimal(5) + ['ч'] + Decimal(5) + ['ч'];
    RepeatedUnitLastWins(5, 5, 'ч');
  }

  /** "7x" has no unit letter, so it is the zero duration. */
  lemma UnknownUnitExample()
    ensures ParseTimeString("7x") == 0
  {
    assert Decimal(7) == "7";
    assert "7x" == Decimal(7) + ['x'];
    NumberWithoutUnit(7, 'x');
  }

  /** Examples of the parser: "2д3ч" is two days and three hours, "5ч5ч" is five
      hours, an unknown unit letter contributes nothing, and "" is zero. */
  lemma ParserExamples()
    ensures ParseTimeString("2д3ч") == 2 * 24 * 60 + 3 * 60
    ensures ParseTimeString("5ч5ч") == 5 * 60
    ensures ParseTimeString("7x") == 0
    ensures ParseTimeString("") == 0
  {
    DaysAndHoursExample();
    RepeatedHoursExample();
    UnknownUnitExample();
  }
}
