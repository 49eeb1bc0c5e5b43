/** Payment gateways: structured extraction from confirmation SMS text.
    Each pattern is matched leftmost-first. In all of them the repeated classes that follow
    one another are disjoint, so the greedy reading never has to be taken back. */
module Gateway {
  import opened Rows
  import opened Float64
  import opened Money
  import opened Text

  datatype GatewayId = Bkash | Nagad

  datatype ParsedTxn = ParsedTxn(gateway: GatewayId, txnId: string, amountMinor: int, senderMsisdn: Option<string>)

  datatype ParseError = NoMatch(gateway: GatewayId) | BadAmount

  function Lower(c: char): char {
    if 'A' <= c <= 'Z' then c - 'A' + 'a' else c
  }

  function LowerAll(s: string): (t: string)
    ensures |t| == |s|
  {
    seq(|s|, i requires 0 <= i < |s| => Lower(s[i]))
  }

  /** Resolve a gateway by its identifier, ignoring ASCII case. */
  function Resolve(name: string): Option<GatewayId> {
    if LowerAll(name) == "bkash" then Some(Bkash)
    else if LowerAll(name) == "nagad" then Some(Nagad)
    else None
  }

  /** s is the word in either case, letter by letter. */
  predicate IsCasing(s: string, small: string, capital: string)
    requires |small| == |capital|
  {
    |s| == |small| && forall i :: 0 <= i < |s| ==> s[i] == small[i] || s[i] == capital[i]
  }

  /** Exactly the casings of the two names resolve, each to its own gateway. */
  lemma ResolveIsByName(name: string)
    ensures Resolve(name) == Some(Bkash) <==> IsCasing(name, "bkash", "BKASH")
    ensures Resolve(name) == Some(Nagad) <==> IsCasing(name, "nagad", "NAGAD")
  {
    CasingIsLower(name, "bkash", "BKASH");
    CasingIsLower(name, "nagad", "NAGAD");
    assert "bkash"[0] != "nagad"[0];
  }

  lemma CasingIsLower(s: string, small: string, capital: string)
    requires |small| == |capital|
    requires forall i :: 0 <= i < |small| ==> 'a' <= small[i] <= 'z' && capital[i] == small[i] - 'a' + 'A'
    ensures LowerAll(s) == small <==> IsCasing(s, small, capital)
  {
    if IsCasing(s, small, capital) {
      forall i | 0 <= i < |s| ensures LowerAll(s)[i] == small[i] {}
    }
    if LowerAll(s) == small {
      forall i | 0 <= i < |s| ensures s[i] == small[i] || s[i] == capital[i] {
        assert LowerAll(s)[i] == small[i];
      }
    }
  }

  // ---- Amounts ----

  /** `(value * 100.0).round() as i64` for text denoting exactly v. */
  function MinorOf(v: real): int { MinorUnits(Fl(v)) }

  /** "1,234.56" | "500" | "1500.00" to minor units. */
  function AmountToMinor(raw: string): Result<int, ParseError> {
    match ParseDecimal(Filter(IsPlain, raw))
    case None => Err(BadAmount)
    case Some(v) => Ok(MinorOf(v))
  }

  /** An amount is refused exactly if its digits and dots hold two dots or no digit. */
  lemma AmountFailsIff(raw: string)
    ensures var s := Filter(IsPlain, raw);
            AmountToMinor(raw) == Err(BadAmount)
            <==> (exists i, j :: 0 <= i < j < |s| && s[i] == '.' && s[j] == '.')
                 || forall i :: 0 <= i < |s| ==> s[i] == '.'
    ensures AmountToMinor(raw).Err? ==> AmountToMinor(raw).error == BadAmount
  {
    ParseFailsIff(Filter(IsPlain, raw));
    FailsByText(raw);
  }

  lemma FailsByText(raw: string)
    ensures AmountToMinor(raw) == Err(BadAmount) <==> ParseDecimal(Filter(IsPlain, raw)) == None
    ensures AmountToMinor(raw).Err? ==> AmountToMinor(raw).error == BadAmount
  {
  }

  predicate NotComma(c: char) { c != ',' }

  /** Thousands separators, wherever they stand, do not change the amount. */
  lemma CommasIgnored(raw: string)
    ensures AmountToMinor(raw) == AmountToMinor(Filter(NotComma, raw))
  {
    FilterTwice(IsPlain, NotComma, raw);
  }

  /** What the fixed form of m reads as. */
  function ReadBack(m: nat): int { MinorOf(InTaka(m)) }

  function InTaka(m: nat): real { m as real / 100.0 }

  lemma FixedReadsAs(m: nat, raw: string)
    requires Filter(NotComma, raw) == FixedText(m)
    ensures AmountToMinor(raw) == Ok(ReadBack(m))
  {
    CommasIgnored(raw);
    FixedMinor(m, InTaka(m));
  }

  lemma FixedMinor(m: nat, v: real)
    requires v == m as real / 100.0
    ensures AmountToMinor(FixedText(m)) == Ok(MinorOf(v))
  {
    FixedDenotes(m);
    FilterAll(IsPlain, FixedText(m));
    AmountDenotes(FixedText(m), v);
  }

  lemma MinorIs(x: F64, v: real)
    requires x == Fl(v)
    ensures MinorUnits(x) == MinorOf(v)
  {
  }

  lemma AmountDenotes(raw: string, v: real)
    requires ParseDecimal(Filter(IsPlain, raw)) == Some(v)
    ensures AmountToMinor(raw) == Ok(MinorOf(v))
  {
  }

  /** Reading text goes the way of the amount itself, so it is exact as far as that is. */
  lemma ReadBackIsPassage(m: nat)
    requires 1 <= m < INT_LIMIT
    ensures ReadBack(m) == Passage(m)
  {
    HundredthsIs(m, InTaka(m));
    MinorIs(Hundredths(m), InTaka(m));
  }

  lemma ReadBackIsExact(m: nat)
    requires m <= EXACT_LIMIT
    ensures ReadBack(m) == m
  {
    if m > 0 {
      ReadBackIsPassage(m);
      PassageIsExact(m);
    }
  }

  /** Reading back what was printed, commas or not, gives the amount. */
  lemma AmountTextRoundTrip(m: int, raw: string)
    requires 1 <= m <= EXACT_LIMIT
    requires Filter(NotComma, raw) == FormatTwo(Hundredths(m))
    ensures AmountToMinor(raw) == Ok(m)
  {
    FormatIsExact(m);
    FixedReadsAs(m, raw);
    ReadBackIsExact(m);
  }

  /** An amount written without decimals, commas or not, is so many taka. */
  lemma WholeAmount(n: nat, raw: string)
    requires 100 * n < INT_LIMIT && Filter(NotComma, raw) == Decimal(n)
    ensures AmountToMinor(raw) == Ok(100 * n)
  {
    CommasIgnored(raw);
    WholeDenotes(n);
    FilterAll(IsPlain, Decimal(n));
    AmountDenotes(Decimal(n), n as real);
    WholeMinor(n, n as real);
  }

  lemma WholeMinor(n: nat, v: real)
    requires 100 * n < INT_LIMIT && v == n as real
    ensures MinorOf(v) == 100 * n
  {
    var p := v * 100.0;
    FlWhole(n, v);
    FlWhole(100 * n, p);
    WholeProduct(Fl(v), v, p, n);
    MinorIs(Fl(v), v);
  }

  lemma FlWhole(k: nat, p: real)
    requires k < INT_LIMIT && p == k as real
    ensures Fl(p) == Finite(p)
  {
    OfIntExact(k);
  }

  lemma WholeProduct(x: F64, v: real, p: real, n: nat)
    requires x == Finite(v) && p == v * 100.0 && Fl(p) == Finite(p) && p == (100 * n) as real && 100 * n < INT_LIMIT
    ensures MinorUnits(x) == 100 * n
  {
    MulFinite(x, v, p);
    RoundsTo(MulConst(x, 100.0), p, 100 * n);
  }

  lemma PlainHasNoComma(m: nat)
    ensures Filter(NotComma, FixedText(m)) == FixedText(m)
  {
    FixedDenotes(m);
    FilterAll(NotComma, FixedText(m));
  }

  /** The text of an amount reads back for all amounts up to a bound if and only if the bound is
      at most the limit. */
  lemma AmountTextUpTo(bound: int)
    ensures (forall m :: 1 <= m <= bound ==> AmountToMinor(FormatTwo(Hundredths(m))) == Ok(m))
       <==> bound <= EXACT_LIMIT
  {
    if bound <= EXACT_LIMIT {
      forall m | 1 <= m <= bound ensures AmountToMinor(FormatTwo(Hundredths(m))) == Ok(m) {
        FormatIsExact(m);
        PlainHasNoComma(m);
        AmountTextRoundTrip(m, FormatTwo(Hundredths(m)));
      }
    } else {
      AmountTextFails(EXACT_LIMIT + 1);
    }
  }

  lemma AmountTextFails(m: int)
    requires m == EXACT_LIMIT + 1
    ensures AmountToMinor(FormatTwo(Hundredths(m))) == Ok(m + 1)
  {
    FormatIsExact(m);
    PlainHasNoComma(m);
    FixedReadsAs(m, FixedText(m));
    ReadBackIsPassage(m);
    PassageFails(m);
  }

  // ---- Patterns ----

  datatype Class = Space | Separator | Digit | AmountChar | Alnum

  predicate InClass(k: Class, c: char) {
    match k
    case Space => c == ' ' || '\t' <= c <= '\r'
    case Separator => c == ':' || c == ' ' || '\t' <= c <= '\r'
    case Digit => IsDigit(c)
    case AmountChar => IsDigit(c) || c == ','
    case Alnum => IsDigit(c) || 'a' <= Lower(c) <= 'z'
  }

  predicate Within(k: Class, s: string) { forall i :: 0 <= i < |s| ==> InClass(k, s[i]) }

  /** How far a greedy repetition of a class reaches. */
  function Span(k: Class, t: string): (n: nat)
    ensures n <= |t| && Within(k, t[..n]) && (n < |t| ==> !InClass(k, t[n]))
  {
    if t == [] || !InClass(k, t[0]) then 0 else
      var n := 1 + Span(k, t[1..]);
      assert t[..n] == [t[0]] + t[1..][..n - 1];
      n
  }

  /** The text begins with the (lower-case) word, ignoring case. */
  predicate StartsWith(t: string, word: string) {
    |word| <= |t| && forall i :: 0 <= i < |word| ==> Lower(t[i]) == word[i]
  }

  /** A literal word, a class repeated at least so often, or an optional character. */
  datatype Token = Word(text: string) | Repeat(k: Class, least: nat) | Optional(c: char)

  datatype Tokens = End | Then(head: Token, tail: Tokens)

  /** The three capture groups: `[A-Z0-9]+`, `[\d,]+(?:\.\d+)?` and `01\d{9}`. */
  datatype Field = IdField | AmountField | MsisdnField

  /** What precedes the capture, as one or two alternatives, and the capture. */
  datatype Pattern = One(lead: Tokens, field: Field) | Either(first: Tokens, second: Tokens, field: Field)

  function Eat(tok: Token, t: string): Option<string> {
    match tok
    case Word(w) => if StartsWith(t, w) then Some(t[|w|..]) else None
    case Repeat(k, least) => if Span(k, t) < least then None else Some(t[Span(k, t)..])
    case Optional(c) => if t != [] && Lower(t[0]) == c then Some(t[1..]) else Some(t)
  }

  function Strip(ts: Tokens, t: string): Option<string> {
    match ts
    case End => Some(t)
    case Then(tok, rest) =>
      match Eat(tok, t)
      case None => None
      case Some(u) => Strip(rest, u)
  }

  function Capture(f: Field, t: string): Option<string> {
    match f
    case IdField => if Span(Alnum, t) == 0 then None else Some(t[..Span(Alnum, t)])
    case MsisdnField => if StartsWith(t, "01") && Span(Digit, t) >= 11 then Some(t[..11]) else None
    case AmountField =>
      var k := Span(AmountChar, t);
      if k == 0 then None
      else if k < |t| && t[k] == '.' && Span(Digit, t[k + 1..]) > 0 then
        Some(t[..k + 1 + Span(Digit, t[k + 1..])])
      else Some(t[..k])
  }

  function MatchTokens(ts: Tokens, f: Field, t: string): Option<string> {
    match Strip(ts, t)
    case None => None
    case Some(u) => Capture(f, u)
  }

  /** The capture when the pattern matches at the very start of t. */
  function MatchAt(p: Pattern, t: string): Option<string> {
    match p
    case One(lead, f) => MatchTokens(lead, f, t)
    case Either(a, b, f) => if MatchTokens(a, f, t).Some? then MatchTokens(a, f, t) else MatchTokens(b, f, t)
  }

  /** `Regex::captures`: the leftmost match. */
  function Search(p: Pattern, t: string): Option<string> {
    if MatchAt(p, t).Some? then MatchAt(p, t)
    else if t == [] then None
    else Search(p, t[1..])
  }

  /** `(?i)TrxID[:\s]+` */
  function TrxIdLead(): Tokens { Then(Word("trxid"), Then(Repeat(Separator, 1), End)) }
  function TxnIdLead(): Tokens { Then(Word("txnid"), Then(Repeat(Separator, 1), End)) }
  /** `\s*Tk?\.?\s*` */
  function TakaLead(): Tokens {
    Then(Repeat(Space, 0), Then(Word("t"), Then(Optional('k'), Then(Optional('.'), Then(Repeat(Space, 0), End)))))
  }

  /** `Tk\.?\s*` */
  function TkLead(): Tokens { Then(Word("tk"), Then(Optional('.'), Then(Repeat(Space, 0), End))) }

  function BkashTxid(): Pattern { One(TrxIdLead(), IdField) }
  function BkashAmount(): Pattern {
    Either(Then(Word("received"), TakaLead()), Then(Word("tk"), Then(Optional('.'), TakaLead())), AmountField)
  }
  function BkashSender(): Pattern { One(Then(Word("from"), Then(Repeat(Space, 1), End)), MsisdnField) }
  function NagadTxid(): Pattern { Either(TxnIdLead(), TrxIdLead(), IdField) }
  function NagadAmount(): Pattern {
    One(Then(Word("amount"), Then(Repeat(Separator, 1), TkLead())), AmountField)
  }
  function NagadSender(): Pattern { One(Then(Word("sender"), Then(Repeat(Separator, 1), End)), MsisdnField) }

  function ParseWith(g: GatewayId, txid: Pattern, amount: Pattern, sender: Pattern, body: string)
    : Result<ParsedTxn, ParseError>
  {
    match Search(txid, body)
    case None => Err(NoMatch(g))
    case Some(id) =>
      match Search(amount, body)
      case None => Err(NoMatch(g))
      case Some(raw) =>
        match AmountToMinor(raw)
        case Err(e) => Err(e)
        case Ok(m) => Ok(ParsedTxn(g, id, m, Search(sender, body)))
  }

  function ParseSms(g: GatewayId, body: string): Result<ParsedTxn, ParseError> {
    match g
    case Bkash => ParseWith(g, BkashTxid(), BkashAmount(), BkashSender(), body)
    case Nagad => ParseWith(g, NagadTxid(), NagadAmount(), NagadSender(), body)
  }

  // ---- Search is leftmost ----

  /** A capture is found exactly when some position matches, and it is that of the first. */
  lemma {:induction false} SearchIsLeftmost(p: Pattern, t: string) returns (i: nat)
    ensures i <= |t|
    ensures forall k :: 0 <= k < i ==> MatchAt(p, t[k..]).None?
    ensures Search(p, t) == MatchAt(p, t[i..])
    ensures Search(p, t).None? ==> i == |t|
  {
    assert t[0..] == t;
    if MatchAt(p, t).Some? || t == [] {
      i := 0;
    } else {
      var j := SearchIsLeftmost(p, t[1..]);
      i := j + 1;
      assert t[i..] == t[1..][j..];
      forall k | 0 <= k < i ensures MatchAt(p, t[k..]).None? {
        if k > 0 { assert t[k..] == t[1..][k - 1..]; }
      }
    }
  }

  // ---- Where a match cannot begin ----

  predicate WordFirst(ts: Tokens) { ts.Then? && ts.head.Word? && |ts.head.text| >= 2 }

  predicate WordsFirst(p: Pattern) {
    match p
    case One(ts, _) => WordFirst(ts)
    case Either(a, b, _) => WordFirst(a) && WordFirst(b)
  }

  /** c is the i-th letter of a word the pattern can begin with. */
  predicate Letter(p: Pattern, i: nat, c: char)
    requires WordsFirst(p) && i < 2
  {
    match p
    case One(ts, _) => Lower(c) == ts.head.text[i]
    case Either(a, b, _) => Lower(c) == a.head.text[i] || Lower(c) == b.head.text[i]
  }

  predicate Inert(p: Pattern, s: string)
    requires WordsFirst(p)
  {
    forall i :: 0 <= i < |s| ==> !Letter(p, 0, s[i])
  }

  lemma NoMatchHere(p: Pattern, t: string, i: nat)
    requires WordsFirst(p) && i < 2 && i < |t| && !Letter(p, i, t[i])
    ensures MatchAt(p, t).None?
  {
    match p
    case One(ts, f) => NoWordHere(ts, f, t, i);
    case Either(a, b, f) => NoWordHere(a, f, t, i); NoWordHere(b, f, t, i);
  }

  lemma NoWordHere(ts: Tokens, f: Field, t: string, i: nat)
    requires WordFirst(ts) && i < 2 && i < |t| && Lower(t[i]) != ts.head.text[i]
    ensures MatchTokens(ts, f, t).None?
  {
    assert !StartsWith(t, ts.head.text);
  }

  lemma {:induction false} SkipInert(p: Pattern, u: string, t: string)
    requires WordsFirst(p) && Inert(p, u)
    ensures Search(p, u + t) == Search(p, t)
  {
    if u == [] {
      assert u + t == t;
    } else {
      assert (u + t)[1..] == u[1..] + t;
      NoMatchHere(p, u + t, 0);
      SkipInert(p, u[1..], t);
    }
  }

  /** A letter that opens a word of the pattern, followed by a letter that breaks it off. */
  lemma SkipFalseStart(p: Pattern, c: char, on: string)
    requires WordsFirst(p) && on != [] && !Letter(p, 1, on[0])
    ensures Search(p, [c] + on) == Search(p, on)
  {
    assert ([c] + on)[1..] == on;
    NoMatchHere(p, [c] + on, 1);
  }

  lemma SkipThree(p: Pattern, x: string, y: string, z: string, t: string)
    requires WordsFirst(p) && Inert(p, x) && Inert(p, y) && Inert(p, z)
    ensures Search(p, x + (y + (z + t))) == Search(p, t)
  {
    SkipInert(p, z, t);
    SkipInert(p, y, z + t);
    SkipInert(p, x, y + (z + t));
  }

  // ---- Where a match is found ----

  lemma EatWord(w: string, written: string, t: string)
    requires |written| == |w| && StartsWith(written, w)
    ensures Eat(Word(w), written + t) == Some(t)
  {
  }

  lemma {:induction false} SpanExact(k: Class, u: string, t: string)
    requires Within(k, u) && (t == [] || !InClass(k, t[0]))
    ensures Span(k, u + t) == |u| && (u + t)[|u|..] == t && (u + t)[..|u|] == u
  {
    if u == [] {
      assert u + t == t;
    } else {
      assert (u + t)[1..] == u[1..] + t;
      SpanExact(k, u[1..], t);
    }
  }

  lemma EatRepeat(k: Class, least: nat, u: string, t: string)
    requires Within(k, u) && least <= |u| && (t == [] || !InClass(k, t[0]))
    ensures Eat(Repeat(k, least), u + t) == Some(t)
  {
    SpanExact(k, u, t);
  }

  lemma EatOptional(c: char, written: char, t: string)
    requires Lower(written) == c
    ensures Eat(Optional(c), [written] + t) == Some(t)
  {
  }

  lemma StripStep(tok: Token, rest: Tokens, t: string, u: string)
    requires Eat(tok, t) == Some(u)
    ensures Strip(Then(tok, rest), t) == Strip(rest, u)
  {
  }

  /** `word sep`, the lead of every pattern but the amounts. */
  lemma StripLabel(w: string, written: string, k: Class, sep: string, t: string)
    requires |written| == |w| && StartsWith(written, w)
    requires sep != [] && Within(k, sep) && t != [] && !InClass(k, t[0])
    ensures Strip(Then(Word(w), Then(Repeat(k, 1), End)), written + (sep + t)) == Some(t)
  {
    EatWord(w, written, sep + t);
    StripStep(Word(w), Then(Repeat(k, 1), End), written + (sep + t), sep + t);
    EatRepeat(k, 1, sep, t);
    StripStep(Repeat(k, 1), End, sep + t, t);
  }

  /** `\s*Tk?\.?\s*` on " Tk ". */
  lemma StripTaka(t: string)
    requires t != [] && !InClass(Space, t[0])
    ensures Strip(TakaLead(), " " + (['T'] + (['k'] + (" " + t)))) == Some(t)
  {
    var t0 := " " + t;
    var t1 := ['k'] + t0;
    var t2 := ['T'] + t1;
    EatRepeat(Space, 0, " ", t2);
    EatWord("t", ['T'], t1);
    EatOptional('k', 'k', t0);
    assert Eat(Optional('.'), t0) == Some(t0);
    EatRepeat(Space, 0, " ", t);
    StripStep(Repeat(Space, 0), End, t0, t);
    StripStep(Optional('.'), Then(Repeat(Space, 0), End), t0, t0);
    StripStep(Optional('k'), Then(Optional('.'), Then(Repeat(Space, 0), End)), t1, t0);
    StripStep(Word("t"), TakaLead().tail.tail, t2, t1);
    StripStep(Repeat(Space, 0), TakaLead().tail, " " + t2, t2);
  }

  lemma StripReceived(t: string)
    requires t != [] && !InClass(Space, t[0])
    ensures Strip(Then(Word("received"), TakaLead()), "received" + (" " + (['T'] + (['k'] + (" " + t))))) == Some(t)
  {
    var on := " " + (['T'] + (['k'] + (" " + t)));
    EatWord("received", "received", on);
    StripStep(Word("received"), TakaLead(), "received" + on, on);
    StripTaka(t);
  }

  /** `Tk\.?\s*` on "Tk ". */
  lemma StripTk(t: string)
    requires t != [] && !InClass(Space, t[0])
    ensures Strip(TkLead(), ['T'] + (['k'] + (" " + t))) == Some(t)
  {
    var t0 := " " + t;
    SplitLast(['T', 'k'], ['T'], 'k', t0);
    EatWord("tk", ['T', 'k'], t0);
    EatRepeat(Space, 0, " ", t);
    StripStep(Repeat(Space, 0), End, t0, t);
    StripStep(Optional('.'), Then(Repeat(Space, 0), End), t0, t0);
    StripStep(Word("tk"), TkLead().tail, ['T'] + (['k'] + t0), t0);
  }

  /** `Amount[:\s]+Tk\.?\s*` on "Amount: Tk ". */
  lemma StripAmountLabel(t: string)
    requires t != [] && !InClass(Space, t[0])
    ensures Strip(NagadAmount().lead, "Amount" + (": " + (['T'] + (['k'] + (" " + t))))) == Some(t)
  {
    var taka := ['T'] + (['k'] + (" " + t));
    StripTk(t);
    EatRepeat(Separator, 1, ": ", taka);
    StripStep(Repeat(Separator, 1), TkLead(), ": " + taka, taka);
    EatWord("amount", "Amount", ": " + taka);
    StripStep(Word("amount"), Then(Repeat(Separator, 1), TkLead()), "Amount" + (": " + taka), ": " + taka);
  }

  lemma CaptureId(id: string)
    requires IsTxnId(id)
    ensures Capture(IdField, id) == Some(id)
  {
    assert id + [] == id;
    SpanExact(Alnum, id, []);
  }

  lemma CaptureMsisdn(s: string, tail: string)
    requires IsSender(s) && tail != [] && !IsDigit(tail[0])
    ensures Capture(MsisdnField, s + tail) == Some(s)
  {
    SpanExact(Digit, s, tail);
    assert (s + tail)[0] == s[0] && (s + tail)[1] == s[1];
  }

  lemma CaptureAmount(a: string, whole: string, fraction: string, tail: string)
    requires IsAmountText(a, whole, fraction) && tail != [] && tail[0] == ' '
    ensures Capture(AmountField, a + tail) == Some(a)
  {
    var after := ['.'] + (fraction + tail);
    assert a + tail == whole + after;
    SpanExact(AmountChar, whole, after);
    assert (a + tail)[|whole| + 1..] == fraction + tail;
    SpanExact(Digit, fraction, tail);
    assert (a + tail)[..|whole| + 1 + |fraction|] == a;
  }

  // ---- Print and parse ----

  /** An amount as a sender prints it: digits, with commas anywhere, and two decimals. */
  ghost predicate IsAmountText(a: string, whole: string, fraction: string) {
    && a == whole + ['.'] + fraction
    && whole != [] && Within(AmountChar, whole)
    && fraction != [] && Within(Digit, fraction)
  }

  predicate IsSender(s: string) { |s| == 11 && Within(Digit, s) && s[0] == '0' && s[1] == '1' }

  predicate IsTxnId(id: string) { id != [] && Within(Alnum, id) }

  // The texts are associated to the right, so that every suffix a pattern can reach is a term
  // of its own.

  /** `x y "Tk A"` and what follows. */
  function Front(x: string, y: string, a: string, tail: string): string {
    x + (y + (['T'] + (['k'] + (" " + (a + tail)))))
  }

  /** " from S. TrxID I" */
  function BkashTail(s: string, id: string): string { " " + ("from" + (" " + (s + (". " + ("TrxID" + (" " + id)))))) }

  /** "received Tk A from S. TrxID I" */
  function BkashText(a: string, s: string, id: string): string {
    Front("received", " ", a, BkashTail(s, id))
  }

  /** " Sender: S TxnID: I" */
  function NagadTail(s: string, id: string): string {
    " " + ("Sender" + (": " + (s + (" " + ("TxnID" + (": " + id))))))
  }

  /** "Amount: Tk A Sender: S TxnID: I" */
  function NagadText(a: string, s: string, id: string): string {
    Front("Amount", ": ", a, NagadTail(s, id))
  }

  /** No digit, comma or dot opens a word. */
  predicate Numeric(s: string) { forall i :: 0 <= i < |s| ==> IsDigit(s[i]) || s[i] == ',' || s[i] == '.' }

  /** The amount field hides no match, and "Tk" opens one at most falsely. */
  lemma SkipTaka(p: Pattern, a: string, tail: string)
    requires WordsFirst(p) && Inert(p, " ") && Inert(p, ['k']) && Inert(p, a)
    requires Inert(p, ['T']) || !Letter(p, 1, 'k')
    ensures Search(p, ['T'] + (['k'] + (" " + (a + tail)))) == Search(p, tail)
  {
    SkipThree(p, ['k'], " ", a, tail);
    var on := ['k'] + (" " + (a + tail));
    if Inert(p, ['T']) { SkipInert(p, ['T'], on); } else { SkipFalseStart(p, 'T', on); }
  }

  /** Nor does the sender field. */
  lemma SkipSender(p: Pattern, word: string, sep: string, s: string, z: string, last: string)
    requires WordsFirst(p) && Inert(p, " ") && Inert(p, word) && Inert(p, sep) && Inert(p, s) && Inert(p, z)
    ensures Search(p, " " + (word + (sep + (s + (z + last))))) == Search(p, last)
  {
    SkipInert(p, z, last);
    SkipInert(p, s, z + last);
    SkipThree(p, " ", word, sep, s + (z + last));
  }

  /** Nothing in `x y "Tk" " " A` is or begins a match. */
  predicate SkipsFront(p: Pattern, x: string, y: string, a: string) {
    && WordsFirst(p) && Inert(p, x) && Inert(p, y)
    && Inert(p, " ") && Inert(p, ['k']) && Inert(p, a) && (Inert(p, ['T']) || !Letter(p, 1, 'k'))
  }

  lemma SkipFront(p: Pattern, x: string, y: string, a: string, tail: string)
    requires SkipsFront(p, x, y, a)
    ensures Search(p, Front(x, y, a, tail)) == Search(p, tail)
  {
    var taka := ['T'] + (['k'] + (" " + (a + tail)));
    SkipTaka(p, a, tail);
    SkipInert(p, y, taka);
    SkipInert(p, x, y + taka);
  }

  /** A field after the front and one space. */
  lemma FoundAfterFront(p: Pattern, x: string, y: string, a: string, on: string, field: string)
    requires SkipsFront(p, x, y, a) && MatchAt(p, on) == Some(field)
    ensures Search(p, Front(x, y, a, " " + on)) == Some(field)
  {
    SkipFront(p, x, y, a, " " + on);
    SkipInert(p, " ", on);
  }

  /** A field after the front and the sender. */
  lemma FoundAfterSender(p: Pattern, x: string, y: string, a: string,
                         word: string, sep: string, s: string, z: string, last: string, field: string)
    requires SkipsFront(p, x, y, a) && MatchAt(p, last) == Some(field)
    requires Inert(p, word) && Inert(p, sep) && Inert(p, s) && Inert(p, z)
    ensures Search(p, Front(x, y, a, " " + (word + (sep + (s + (z + last)))))) == Some(field)
  {
    SkipFront(p, x, y, a, " " + (word + (sep + (s + (z + last)))));
    SkipSender(p, word, sep, s, z, last);
  }

  lemma BkashTxidFront(a: string, s: string)
    requires Numeric(a) && Numeric(s)
    ensures var p := BkashTxid(); SkipsFront(p, "received", " ", a) && Inert(p, "from") && Inert(p, s) && Inert(p, ". ")
  {
  }

  lemma BkashTxidFound(a: string, s: string, id: string)
    requires Numeric(a) && Numeric(s) && IsTxnId(id)
    ensures Search(BkashTxid(), BkashText(a, s, id)) == Some(id)
  {
    StripLabel("trxid", "TrxID", Separator, " ", id);
    CaptureId(id);
    BkashTxidFront(a, s);
    FoundAfterSender(BkashTxid(), "received", " ", a, "from", " ", s, ". ", "TrxID" + (" " + id), id);
  }

  /** Only the t of "Amount" opens a match, and falsely. */
  lemma SkipAmountWord(p: Pattern, front: string, c: char, sep: string, t: string)
    requires WordsFirst(p) && Inert(p, front) && Inert(p, sep) && sep != [] && !Letter(p, 1, sep[0])
    ensures Search(p, (front + [c]) + (sep + t)) == Search(p, t)
  {
    SkipInert(p, sep, t);
    SkipFalseStart(p, c, sep + t);
    SkipInert(p, front, [c] + (sep + t));
    SplitLast(front + [c], front, c, sep + t);
  }

  lemma NagadTxidFront(a: string, s: string)
    requires Numeric(a) && Numeric(s)
    ensures var p := NagadTxid();
            SkipsFront(p, "", "", a) && Inert(p, "Amoun") && Inert(p, "Sender") && Inert(p, ": ") && Inert(p, s)
            && !Letter(p, 1, ':')
  {
  }

  lemma NagadTxidFound(a: string, s: string, id: string)
    requires Numeric(a) && Numeric(s) && IsTxnId(id)
    ensures Search(NagadTxid(), NagadText(a, s, id)) == Some(id)
  {
    StripLabel("txnid", "TxnID", Separator, ": ", id);
    CaptureId(id);
    NagadTxidFront(a, s);
    FoundAfterSender(NagadTxid(), "", "", a, "Sender", ": ", s, " ", "TxnID" + (": " + id), id);
    NagadFront(NagadTxid(), a, NagadTail(s, id));
  }

  lemma NagadFront(p: Pattern, a: string, tail: string)
    requires WordsFirst(p) && Inert(p, "Amoun") && Inert(p, ": ") && !Letter(p, 1, ':')
    ensures Search(p, Front("Amount", ": ", a, tail)) == Search(p, Front("", "", a, tail))
  {
    var taka := ['T'] + (['k'] + (" " + (a + tail)));
    assert "" + ("" + taka) == taka;
    SkipAmountWord(p, "Amoun", 't', ": ", taka);
    assert "Amoun" + ['t'] == "Amount";
  }

  lemma SplitLast(word: string, front: string, c: char, t: string)
    requires word == front + [c]
    ensures word + t == front + ([c] + t)
  {
  }

  /** Nothing before "from" begins with f. */
  lemma BkashSenderFound(a: string, s: string, tail: string)
    requires Numeric(a) && IsSender(s) && tail != [] && !IsDigit(tail[0])
    ensures Search(BkashSender(), Front("received", " ", a, " " + ("from" + (" " + (s + tail))))) == Some(s)
  {
    StripLabel("from", "from", Space, " ", s + tail);
    CaptureMsisdn(s, tail);
    BkashSenderFront(a);
    FoundAfterFront(BkashSender(), "received", " ", a, "from" + (" " + (s + tail)), s);
  }

  lemma BkashSenderFront(a: string)
    requires Numeric(a)
    ensures SkipsFront(BkashSender(), "received", " ", a)
  {
  }

  /** Nothing before "Sender" begins with s. */
  lemma NagadSenderFound(a: string, s: string, tail: string)
    requires Numeric(a) && IsSender(s) && tail != [] && !IsDigit(tail[0])
    ensures Search(NagadSender(), Front("Amount", ": ", a, " " + ("Sender" + (": " + (s + tail))))) == Some(s)
  {
    StripLabel("sender", "Sender", Separator, ": ", s + tail);
    CaptureMsisdn(s, tail);
    NagadSenderFront(a);
    FoundAfterFront(NagadSender(), "Amount", ": ", a, "Sender" + (": " + (s + tail)), s);
  }

  lemma NagadSenderFront(a: string)
    requires Numeric(a)
    ensures SkipsFront(NagadSender(), "Amount", ": ", a)
  {
  }

  /** Both amounts match where their message begins. */
  lemma AmountsFound(a: string, whole: string, fraction: string, tail: string)
    requires IsAmountText(a, whole, fraction) && tail != [] && tail[0] == ' '
    ensures Search(BkashAmount(), Front("received", " ", a, tail)) == Some(a)
    ensures Search(NagadAmount(), Front("Amount", ": ", a, tail)) == Some(a)
  {
    CaptureAmount(a, whole, fraction, tail);
    assert (a + tail)[0] == whole[0];
    StripReceived(a + tail);
    StripAmountLabel(a + tail);
  }

  /** Parsing a printed confirmation returns exactly the fields printed, whatever the amount; and
      the amount reads as itself up to the limit. */
  lemma PrintParseRoundTrip(m: nat, a: string, whole: string, fraction: string, s: string, id: string)
    requires IsAmountText(a, whole, fraction) && Filter(NotComma, a) == FixedText(m)
    requires IsSender(s) && IsTxnId(id)
    ensures ParseSms(Bkash, BkashText(a, s, id)) == Ok(ParsedTxn(Bkash, id, ReadBack(m), Some(s)))
    ensures ParseSms(Nagad, NagadText(a, s, id)) == Ok(ParsedTxn(Nagad, id, ReadBack(m), Some(s)))
    ensures m <= EXACT_LIMIT ==> ReadBack(m) == m
  {
    FixedReadsAs(m, a);
    BkashParsed(ReadBack(m), a, whole, fraction, s, id);
    NagadParsed(ReadBack(m), a, whole, fraction, s, id);
    if m <= EXACT_LIMIT { ReadBackIsExact(m); }
  }

  lemma BkashParsed(m: int, a: string, whole: string, fraction: string, s: string, id: string)
    requires IsAmountText(a, whole, fraction) && AmountToMinor(a) == Ok(m)
    requires IsSender(s) && IsTxnId(id)
    ensures ParseSms(Bkash, BkashText(a, s, id)) == Ok(ParsedTxn(Bkash, id, m, Some(s)))
  {
    BkashTxidFound(a, s, id);
    AmountsFound(a, whole, fraction, BkashTail(s, id));
    BkashSenderFound(a, s, ". " + ("TrxID" + (" " + id)));
    Assembled(Bkash, BkashTxid(), BkashAmount(), BkashSender(), BkashText(a, s, id), id, a, m, s);
  }

  lemma NagadParsed(m: int, a: string, whole: string, fraction: string, s: string, id: string)
    requires IsAmountText(a, whole, fraction) && AmountToMinor(a) == Ok(m)
    requires IsSender(s) && IsTxnId(id)
    ensures ParseSms(Nagad, NagadText(a, s, id)) == Ok(ParsedTxn(Nagad, id, m, Some(s)))
  {
    NagadTxidFound(a, s, id);
    AmountsFound(a, whole, fraction, NagadTail(s, id));
    NagadSenderFound(a, s, " " + ("TxnID" + (": " + id)));
    Assembled(Nagad, NagadTxid(), NagadAmount(), NagadSender(), NagadText(a, s, id), id, a, m, s);
  }

  lemma Assembled(g: GatewayId, txid: Pattern, amount: Pattern, sender: Pattern, body: string,
                  id: string, a: string, m: int, s: string)
    requires Search(txid, body) == Some(id) && Search(amount, body) == Some(a) && Search(sender, body) == Some(s)
    requires AmountToMinor(a) == Ok(m)
    ensures ParseWith(g, txid, amount, sender, body) == Ok(ParsedTxn(g, id, m, Some(s)))
  {
  }
}
