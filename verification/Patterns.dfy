/** The six patterns, as languages: where each matches and what it captures, in terms of the
    characters of the text. The matcher reads greedily and never takes anything back; that is
    shown to find exactly the texts that can be divided as the pattern says. */
module Patterns {
  import opened Rows
  import opened Gateway

  // ---- Characters ----

  predicate Blank(c: char) { c == ' ' || c == '\t' || c == '\n' || c == '\U{0B}' || c == '\U{0C}' || c == '\r' }

  predicate Numeral(c: char) { '0' <= c <= '9' }

  predicate LetterOrNumeral(c: char) { Numeral(c) || 'a' <= c <= 'z' || 'A' <= c <= 'Z' }

  predicate Blanks(s: string) { forall i :: 0 <= i < |s| ==> Blank(s[i]) }

  predicate BlanksOrColons(s: string) { forall i :: 0 <= i < |s| ==> Blank(s[i]) || s[i] == ':' }

  /** `[:\s]+` */
  predicate Separators(s: string) { |s| >= 1 && BlanksOrColons(s) }

  /** `\.?` */
  predicate DotOrNothing(s: string) { s == [] || s == ['.'] }

  /** `k?`, in either case. */
  predicate KayOrNothing(s: string) { s == [] || s == ['k'] || s == ['K'] }

  /** `[A-Z0-9]+`, in either case. */
  predicate IdText(s: string) { |s| >= 1 && forall i :: 0 <= i < |s| ==> LetterOrNumeral(s[i]) }

  predicate Numerals(s: string) { forall i :: 0 <= i < |s| ==> Numeral(s[i]) }

  /** `01\d{9}` */
  predicate NumberText(s: string) { |s| == 11 && s[0] == '0' && s[1] == '1' && Numerals(s) }

  /** `[\d,]+` */
  predicate WholeText(s: string) { |s| >= 1 && forall i :: 0 <= i < |s| ==> Numeral(s[i]) || s[i] == ',' }

  /** `\.\d+` */
  predicate FractionText(s: string) { |s| >= 2 && s[0] == '.' && Numerals(s[1..]) }

  predicate StartsNumeral(s: string) { s != [] && Numeral(s[0]) }

  predicate StartsFraction(s: string) { |s| >= 2 && s[0] == '.' && Numeral(s[1]) }

  // ---- Fields ----

  /** An id that goes on as far as it can. */
  predicate IdEnds(v: string, rest: string) { IdText(v) && (rest == [] || !LetterOrNumeral(rest[0])) }

  /** `[\d,]+(?:\.\d+)?`, each part going on as far as it can. */
  ghost predicate AmountEnds(v: string, rest: string) {
    || (WholeText(v) && !StartsNumeral(rest) && (rest == [] || rest[0] != ',') && !StartsFraction(rest))
    || exists whole, fraction ::
         v == whole + fraction && WholeText(whole) && FractionText(fraction) && !StartsNumeral(rest)
  }

  lemma AllClasses()
    ensures forall c :: InClass(Space, c) <==> Blank(c)
    ensures forall c :: InClass(Separator, c) <==> Blank(c) || c == ':'
    ensures forall c :: InClass(Digit, c) <==> Numeral(c)
    ensures forall c :: InClass(AmountChar, c) <==> Numeral(c) || c == ','
    ensures forall c :: InClass(Alnum, c) <==> LetterOrNumeral(c)
  {
  }

  lemma SpanIs(k: Class, u: string, t: string)
    requires Within(k, u) && (t == [] || !InClass(k, t[0]))
    ensures Span(k, u + t) == |u|
  {
    SpanExact(k, u, t);
  }

  lemma CaptureIdIff(r: string, v: string)
    ensures Capture(IdField, r) == Some(v) <==> exists rest :: r == v + rest && IdEnds(v, rest)
  {
    AllClasses();
    if Capture(IdField, r) == Some(v) {
      assert r == v + r[|v|..] && IdEnds(v, r[|v|..]);
    }
    forall rest | r == v + rest && IdEnds(v, rest) ensures Capture(IdField, r) == Some(v) {
      SpanIs(Alnum, v, rest);
      assert r[..|v|] == v;
    }
  }

  lemma {:induction false} SpanAtLeast(k: Class, u: string, t: string)
    requires Within(k, u)
    ensures Span(k, u + t) >= |u|
  {
    if u != [] {
      assert (u + t)[1..] == u[1..] + t;
      SpanAtLeast(k, u[1..], t);
    }
  }

  lemma SpanStarts(k: Class, t: string)
    ensures Span(k, t) > 0 <==> t != [] && InClass(k, t[0])
  {
  }

  lemma CaptureNumberIff(r: string, v: string)
    ensures Capture(MsisdnField, r) == Some(v) <==> exists rest :: r == v + rest && NumberText(v)
  {
    AllClasses();
    if Capture(MsisdnField, r) == Some(v) {
      var n := Span(Digit, r);
      assert forall i :: 0 <= i < 11 ==> r[..n][i] == v[i];
      assert r == v + r[11..] && NumberText(v);
    }
    forall rest | r == v + rest && NumberText(v) ensures Capture(MsisdnField, r) == Some(v) {
      SpanAtLeast(Digit, v, rest);
      assert r[..11] == v && r[0] == v[0] && r[1] == v[1];
    }
  }

  lemma CaptureAmountEnds(r: string, v: string)
    requires Capture(AmountField, r) == Some(v)
    ensures exists rest :: r == v + rest && AmountEnds(v, rest)
  {
    AllClasses();
    var k := Span(AmountChar, r);
    var rest := r[|v|..];
    assert r == v + rest;
    if k < |r| && r[k] == '.' && Span(Digit, r[k + 1..]) > 0 {
      var n := Span(Digit, r[k + 1..]);
      var whole, fraction := r[..k], ['.'] + r[k + 1..][..n];
      assert v == whole + fraction && fraction[1..] == r[k + 1..][..n];
      assert rest == r[k + 1..][n..];
      assert WholeText(whole) && FractionText(fraction);
      assert AmountEnds(v, rest);
    } else {
      assert v == r[..k] && rest == r[k..];
      if k < |r| { SpanStarts(Digit, r[k + 1..]); }
      assert AmountEnds(v, rest);
    }
  }

  lemma AmountIsCaptured(r: string, v: string, rest: string)
    requires r == v + rest && AmountEnds(v, rest)
    ensures Capture(AmountField, r) == Some(v)
  {
    AllClasses();
    if WholeText(v) && !StartsNumeral(rest) && (rest == [] || rest[0] != ',') && !StartsFraction(rest) {
      SpanIs(AmountChar, v, rest);
      assert r[..|v|] == v;
      if rest != [] && rest[0] == '.' {
        assert r[|v| + 1..] == rest[1..];
        SpanStarts(Digit, rest[1..]);
      }
    } else {
      var whole, fraction :|
        v == whole + fraction && WholeText(whole) && FractionText(fraction) && !StartsNumeral(rest);
      WholeAndFraction(r, whole, fraction, rest);
    }
  }

  lemma WholeAndFraction(r: string, whole: string, fraction: string, rest: string)
    requires r == whole + fraction + rest && WholeText(whole) && FractionText(fraction) && !StartsNumeral(rest)
    ensures Capture(AmountField, r) == Some(whole + fraction)
  {
    AllClasses();
    assert r == whole + (fraction + rest);
    SpanIs(AmountChar, whole, fraction + rest);
    assert r[|whole| + 1..] == fraction[1..] + rest;
    SpanIs(Digit, fraction[1..], rest);
    assert r[..|whole| + |fraction|] == whole + fraction;
  }

  lemma CaptureAmountIff(r: string, v: string)
    ensures Capture(AmountField, r) == Some(v) <==> exists rest :: r == v + rest && AmountEnds(v, rest)
  {
    if Capture(AmountField, r) == Some(v) {
      CaptureAmountEnds(r, v);
    }
    forall rest | r == v + rest && AmountEnds(v, rest) ensures Capture(AmountField, r) == Some(v) {
      AmountIsCaptured(r, v, rest);
    }
  }

  // ---- Greedy reading is exact ----

  /** A text one token can read. */
  predicate Reads(tok: Token, u: string) {
    match tok
    case Word(w) => |u| == |w| && StartsWith(u, w)
    case Repeat(k, least) => |u| >= least && Within(k, u)
    case Optional(c) => u == [] || (|u| == 1 && Lower(u[0]) == c)
  }

  /** A character the tokens and the field after them can begin with. */
  predicate Begins(ts: Tokens, f: Field, c: char) {
    match ts
    case End =>
      (match f
       case IdField => InClass(Alnum, c)
       case AmountField => InClass(AmountChar, c)
       case MsisdnField => c == '0')
    case Then(Word(w), _) => w != [] && Lower(c) == w[0]
    case Then(Repeat(k, least), rest) => InClass(k, c) || (least == 0 && Begins(rest, f, c))
    case Then(Optional(d), rest) => Lower(c) == d || Begins(rest, f, c)
  }

  /** What can be read greedily cannot be the beginning of what follows. */
  ghost predicate Clear(ts: Tokens, f: Field) {
    match ts
    case End => true
    case Then(Word(w), rest) => w != [] && Clear(rest, f)
    case Then(Repeat(k, _), rest) => (forall c :: InClass(k, c) ==> !Begins(rest, f, c)) && Clear(rest, f)
    case Then(Optional(d), rest) => (forall c :: Lower(c) == d ==> !Begins(rest, f, c)) && Clear(rest, f)
  }

  lemma FieldBegins(f: Field, r: string)
    requires Capture(f, r).Some?
    ensures r != [] && Begins(End, f, r[0])
  {
  }

  /** The text can be divided into what each token reads in turn and a field v, whatever follows. */
  ghost predicate Divides(ts: Tokens, f: Field, t: string, v: string) {
    match ts
    case End => Capture(f, t) == Some(v)
    case Then(tok, rest) => exists u, on :: t == u + on && Reads(tok, u) && Divides(rest, f, on, v)
  }

  lemma {:induction false} DividedBegins(ts: Tokens, f: Field, t: string, v: string)
    requires Divides(ts, f, t, v) && Clear(ts, f)
    ensures t != [] && Begins(ts, f, t[0])
  {
    match ts
    case End => FieldBegins(f, t);
    case Then(tok, rest) =>
      var u, on :| t == u + on && Reads(tok, u) && Divides(rest, f, on, v);
      DividedBegins(rest, f, on, v);
      if u == [] { assert t == on; } else { assert t[0] == u[0]; }
  }

  lemma EatReads(tok: Token, u: string, t: string, rest: Tokens, f: Field)
    requires Reads(tok, u) && Clear(Then(tok, rest), f) && t != [] && Begins(rest, f, t[0])
    ensures Eat(tok, u + t) == Some(t)
  {
    match tok
    case Word(w) => EatWord(w, u, t);
    case Repeat(k, least) => EatRepeat(k, least, u, t);
    case Optional(c) =>
      if u == [] {
        assert u + t == t;
      } else {
        EatOptional(c, u[0], t);
        assert [u[0]] == u;
      }
  }

  lemma EatSound(tok: Token, t: string) returns (u: string)
    requires Eat(tok, t).Some?
    ensures Reads(tok, u) && t == u + Eat(tok, t).value
  {
    u := t[..|t| - |Eat(tok, t).value|];
  }

  /** The greedy reading finds the field exactly where the text can be divided so. */
  lemma {:induction false} MatchIff(ts: Tokens, f: Field, t: string, v: string)
    requires Clear(ts, f)
    ensures MatchTokens(ts, f, t) == Some(v) <==> Divides(ts, f, t, v)
  {
    if ts.Then? {
      if MatchTokens(ts, f, t) == Some(v) {
        var u := EatSound(ts.head, t);
        var on := Eat(ts.head, t).value;
        MatchIff(ts.tail, f, on, v);
        assert t == u + on && Reads(ts.head, u) && Divides(ts.tail, f, on, v);
      }
      forall u, on | t == u + on && Reads(ts.head, u) && Divides(ts.tail, f, on, v)
        ensures MatchTokens(ts, f, t) == Some(v)
      {
        DividedBegins(ts.tail, f, on, v);
        EatReads(ts.head, u, on, ts.tail, f);
        MatchIff(ts.tail, f, on, v);
      }
    }
  }

  // ---- The patterns as grammars ----

  /** Texts that begin with one of the first kind and go on as one of the second. */
  ghost function Followed(first: string -> bool, on: string -> bool): string -> bool {
    (t: string) => exists u, r :: t == u + r && first(u) && on(r)
  }

  /** A word in either case. */
  function Cased(small: string, capital: string): string -> bool {
    (s: string) => |small| == |capital| && IsCasing(s, small, capital)
  }

  ghost function AnId(v: string): string -> bool { (t: string) => exists rest :: t == v + rest && IdEnds(v, rest) }

  ghost function ANumber(v: string): string -> bool { (t: string) => exists rest :: t == v + rest && NumberText(v) }

  ghost function AnAmount(v: string): string -> bool {
    (t: string) => exists rest :: t == v + rest && AmountEnds(v, rest)
  }

  /** `\s+` */
  predicate SomeBlanks(s: string) { |s| >= 1 && Blanks(s) }

  lemma FieldsMean(v: string)
    ensures forall t :: Divides(End, IdField, t, v) <==> AnId(v)(t)
    ensures forall t :: Divides(End, MsisdnField, t, v) <==> ANumber(v)(t)
    ensures forall t :: Divides(End, AmountField, t, v) <==> AnAmount(v)(t)
  {
    forall t ensures Divides(End, IdField, t, v) <==> AnId(v)(t) { CaptureIdIff(t, v); }
    forall t ensures Divides(End, MsisdnField, t, v) <==> ANumber(v)(t) { CaptureNumberIff(t, v); }
    forall t ensures Divides(End, AmountField, t, v) <==> AnAmount(v)(t) { CaptureAmountIff(t, v); }
  }

  /** If a token reads the texts of one kind and what follows divides those of another, together
      they divide the one kind followed by the other. */
  lemma ThenMeans(tok: Token, rest: Tokens, f: Field, v: string, first: string -> bool, on: string -> bool)
    requires forall u :: Reads(tok, u) <==> first(u)
    requires forall r :: Divides(rest, f, r, v) <==> on(r)
    ensures forall t :: Divides(Then(tok, rest), f, t, v) <==> Followed(first, on)(t)
  {
    forall t ensures Divides(Then(tok, rest), f, t, v) <==> Followed(first, on)(t) {
      if Divides(Then(tok, rest), f, t, v) {
        var u, r :| t == u + r && Reads(tok, u) && Divides(rest, f, r, v);
        assert first(u) && on(r);
      }
      if Followed(first, on)(t) {
        var u, r :| t == u + r && first(u) && on(r);
        assert Reads(tok, u) && Divides(rest, f, r, v);
      }
    }
  }

  lemma WordMeans(small: string, capital: string)
    requires |small| == |capital|
    requires forall i :: 0 <= i < |small| ==> 'a' <= small[i] <= 'z' && capital[i] == small[i] - 'a' + 'A'
    ensures forall u :: Reads(Word(small), u) <==> Cased(small, capital)(u)
  {
  }

  lemma TokensMean()
    ensures forall u :: Reads(Repeat(Separator, 1), u) <==> Separators(u)
    ensures forall u :: Reads(Repeat(Space, 1), u) <==> SomeBlanks(u)
    ensures forall u :: Reads(Repeat(Space, 0), u) <==> Blanks(u)
    ensures forall u :: Reads(Optional('.'), u) <==> DotOrNothing(u)
    ensures forall u :: Reads(Optional('k'), u) <==> KayOrNothing(u)
  {
    AllClasses();
  }

  /** Two leads that begin with different words do not both match. */
  lemma OneWord(a: Tokens, b: Tokens, f: Field, t: string, i: nat)
    requires a.Then? && a.head.Word? && b.Then? && b.head.Word?
    requires i < |a.head.text| && i < |b.head.text| && a.head.text[i] != b.head.text[i]
    ensures MatchTokens(a, f, t).None? || MatchTokens(b, f, t).None?
  {
    assert i < |t| ==> Lower(t[i]) != a.head.text[i] || Lower(t[i]) != b.head.text[i];
  }

  // ---- Ids and senders ----

  /** `label[:\s]+` before a field. */
  lemma LabelMeans(small: string, capital: string, k: Class, between: string -> bool,
                   f: Field, v: string, field: string -> bool)
    requires |small| == |capital|
    requires forall i :: 0 <= i < |small| ==> 'a' <= small[i] <= 'z' && capital[i] == small[i] - 'a' + 'A'
    requires forall u :: Reads(Repeat(k, 1), u) <==> between(u)
    requires forall r :: Divides(End, f, r, v) <==> field(r)
    ensures forall t :: Divides(Then(Word(small), Then(Repeat(k, 1), End)), f, t, v)
                   <==> Followed(Cased(small, capital), Followed(between, field))(t)
  {
    WordMeans(small, capital);
    ThenMeans(Repeat(k, 1), End, f, v, between, field);
    ThenMeans(Word(small), Then(Repeat(k, 1), End), f, v, Cased(small, capital), Followed(between, field));
  }

  lemma LabelClear(w: string, k: Class, f: Field)
    requires w != [] && forall c :: InClass(k, c) ==> !Begins(End, f, c)
    ensures Clear(Then(Word(w), Then(Repeat(k, 1), End)), f)
  {
  }

  /** `(?i)TrxID[:\s]+([A-Z0-9]+)` */
  lemma BkashTxidIff(t: string, v: string)
    ensures MatchAt(BkashTxid(), t) == Some(v) <==> Followed(Cased("trxid", "TRXID"), Followed(Separators, AnId(v)))(t)
  {
    AllClasses();
    TokensMean();
    FieldsMean(v);
    LabelMeans("trxid", "TRXID", Separator, Separators, IdField, v, AnId(v));
    LabelClear("trxid", Separator, IdField);
    MatchIff(TrxIdLead(), IdField, t, v);
  }

  /** `(?i)(?:TxnID|TrxID)[:\s]+([A-Z0-9]+)` */
  lemma NagadTxidIff(t: string, v: string)
    ensures MatchAt(NagadTxid(), t) == Some(v)
       <==> Followed(Cased("txnid", "TXNID"), Followed(Separators, AnId(v)))(t)
            || Followed(Cased("trxid", "TRXID"), Followed(Separators, AnId(v)))(t)
  {
    AllClasses();
    TokensMean();
    FieldsMean(v);
    LabelMeans("txnid", "TXNID", Separator, Separators, IdField, v, AnId(v));
    LabelMeans("trxid", "TRXID", Separator, Separators, IdField, v, AnId(v));
    LabelClear("txnid", Separator, IdField);
    LabelClear("trxid", Separator, IdField);
    MatchIff(TxnIdLead(), IdField, t, v);
    MatchIff(TrxIdLead(), IdField, t, v);
    assert "txnid"[1] != "trxid"[1];
    OneWord(TxnIdLead(), TrxIdLead(), IdField, t, 1);
  }

  /** `(?i)from\s+(01\d{9})` */
  lemma BkashSenderIff(t: string, v: string)
    ensures MatchAt(BkashSender(), t) == Some(v)
       <==> Followed(Cased("from", "FROM"), Followed(SomeBlanks, ANumber(v)))(t)
  {
    AllClasses();
    TokensMean();
    FieldsMean(v);
    LabelMeans("from", "FROM", Space, SomeBlanks, MsisdnField, v, ANumber(v));
    LabelClear("from", Space, MsisdnField);
    MatchIff(BkashSender().lead, MsisdnField, t, v);
  }

  /** `(?i)Sender[:\s]+(01\d{9})` */
  lemma NagadSenderIff(t: string, v: string)
    ensures MatchAt(NagadSender(), t) == Some(v)
       <==> Followed(Cased("sender", "SENDER"), Followed(Separators, ANumber(v)))(t)
  {
    AllClasses();
    TokensMean();
    FieldsMean(v);
    LabelMeans("sender", "SENDER", Separator, Separators, MsisdnField, v, ANumber(v));
    LabelClear("sender", Separator, MsisdnField);
    MatchIff(NagadSender().lead, MsisdnField, t, v);
  }

  // ---- Amounts ----

  /** `\.?\s*` and the amount. */
  ghost function DotBlanksAmount(v: string): string -> bool {
    Followed(DotOrNothing, Followed(Blanks, AnAmount(v)))
  }

  /** `\s*Tk?\.?\s*` and the amount. */
  ghost function TakaAmount(v: string): string -> bool {
    Followed(Blanks, Followed(Cased("t", "T"), Followed(KayOrNothing, DotBlanksAmount(v))))
  }

  function DotBlanks(): Tokens { Then(Optional('.'), Then(Repeat(Space, 0), End)) }

  lemma DotBlanksMean(v: string)
    ensures forall t :: Divides(DotBlanks(), AmountField, t, v) <==> DotBlanksAmount(v)(t)
  {
    TokensMean();
    FieldsMean(v);
    ThenMeans(Repeat(Space, 0), End, AmountField, v, Blanks, AnAmount(v));
    ThenMeans(Optional('.'), Then(Repeat(Space, 0), End), AmountField, v, DotOrNothing, Followed(Blanks, AnAmount(v)));
  }

  lemma TakaMeans(v: string)
    ensures forall t :: Divides(TakaLead(), AmountField, t, v) <==> TakaAmount(v)(t)
  {
    TokensMean();
    DotBlanksMean(v);
    WordMeans("t", "T");
    var afterT, afterBlanks := Then(Optional('k'), DotBlanks()), Then(Word("t"), Then(Optional('k'), DotBlanks()));
    ThenMeans(Optional('k'), DotBlanks(), AmountField, v, KayOrNothing, DotBlanksAmount(v));
    var kay := Followed(KayOrNothing, DotBlanksAmount(v));
    ThenMeans(Word("t"), afterT, AmountField, v, Cased("t", "T"), kay);
    ThenMeans(Repeat(Space, 0), afterBlanks, AmountField, v, Blanks, Followed(Cased("t", "T"), kay));
  }

  lemma TakaClear()
    ensures Clear(DotBlanks(), AmountField) && Clear(TakaLead(), AmountField)
  {
    AllClasses();
    var afterT := Then(Optional('k'), DotBlanks());
    assert Clear(Then(Repeat(Space, 0), End), AmountField);
    assert Clear(DotBlanks(), AmountField);
    assert forall c :: Begins(Then(Repeat(Space, 0), End), AmountField, c) ==> Blank(c) || Numeral(c) || c == ',';
    assert forall c :: Begins(DotBlanks(), AmountField, c) ==> c == '.' || Blank(c) || Numeral(c) || c == ',';
    assert Clear(afterT, AmountField);
    assert Clear(Then(Word("t"), afterT), AmountField);
  }

  /** `(?i)(?:received|Tk\.?)\s*Tk?\.?\s*([\d,]+(?:\.\d+)?)` */
  lemma BkashAmountIff(t: string, v: string)
    ensures MatchAt(BkashAmount(), t) == Some(v)
       <==> Followed(Cased("received", "RECEIVED"), TakaAmount(v))(t)
            || Followed(Cased("tk", "TK"), Followed(DotOrNothing, TakaAmount(v)))(t)
  {
    var a, b := BkashAmount().first, BkashAmount().second;
    ReceivedMeans(v);
    TkMeans(v);
    BkashAmountClear();
    MatchIff(a, AmountField, t, v);
    MatchIff(b, AmountField, t, v);
    assert "received"[0] != "tk"[0];
    OneWord(a, b, AmountField, t, 0);
  }

  lemma ReceivedMeans(v: string)
    ensures forall t :: Divides(BkashAmount().first, AmountField, t, v)
                   <==> Followed(Cased("received", "RECEIVED"), TakaAmount(v))(t)
  {
    TakaMeans(v);
    WordMeans("received", "RECEIVED");
    ThenMeans(Word("received"), TakaLead(), AmountField, v, Cased("received", "RECEIVED"), TakaAmount(v));
  }

  lemma TkMeans(v: string)
    ensures forall t :: Divides(BkashAmount().second, AmountField, t, v)
                   <==> Followed(Cased("tk", "TK"), Followed(DotOrNothing, TakaAmount(v)))(t)
  {
    TakaMeans(v);
    TokensMean();
    WordMeans("tk", "TK");
    ThenMeans(Optional('.'), TakaLead(), AmountField, v, DotOrNothing, TakaAmount(v));
    ThenMeans(Word("tk"), Then(Optional('.'), TakaLead()), AmountField, v, Cased("tk", "TK"),
              Followed(DotOrNothing, TakaAmount(v)));
  }

  lemma BkashAmountClear()
    ensures Clear(BkashAmount().first, AmountField) && Clear(BkashAmount().second, AmountField)
  {
    TakaClear();
    AllClasses();
    assert forall c :: Begins(TakaLead(), AmountField, c) ==> Blank(c) || Lower(c) == 't';
    assert Clear(Then(Optional('.'), TakaLead()), AmountField);
  }

  /** `(?i)Amount[:\s]+Tk\.?\s*([\d,]+(?:\.\d+)?)` */
  lemma NagadAmountIff(t: string, v: string)
    ensures MatchAt(NagadAmount(), t) == Some(v)
       <==> Followed(Cased("amount", "AMOUNT"),
                     Followed(Separators, Followed(Cased("tk", "TK"), DotBlanksAmount(v))))(t)
  {
    AllClasses();
    TokensMean();
    DotBlanksMean(v);
    WordMeans("tk", "TK");
    WordMeans("amount", "AMOUNT");
    var tk := Followed(Cased("tk", "TK"), DotBlanksAmount(v));
    ThenMeans(Word("tk"), DotBlanks(), AmountField, v, Cased("tk", "TK"), DotBlanksAmount(v));
    ThenMeans(Repeat(Separator, 1), TkLead(), AmountField, v, Separators, tk);
    ThenMeans(Word("amount"), Then(Repeat(Separator, 1), TkLead()), AmountField, v, Cased("amount", "AMOUNT"),
              Followed(Separators, tk));
    TakaClear();
    assert Clear(TkLead(), AmountField);
    assert Clear(Then(Repeat(Separator, 1), TkLead()), AmountField);
    MatchIff(NagadAmount().lead, AmountField, t, v);
  }

  // ---- A whole message ----

  /** The leftmost place where a pattern matches, and what it captures there. */
  ghost predicate FirstAt(p: Pattern, body: string, i: nat, v: string) {
    && i <= |body| && MatchAt(p, body[i..]) == Some(v)
    && forall k :: 0 <= k < i ==> MatchAt(p, body[k..]).None?
  }

  ghost predicate Nowhere(p: Pattern, body: string) { forall i :: 0 <= i <= |body| ==> MatchAt(p, body[i..]).None? }

  lemma SearchIff(p: Pattern, body: string)
    ensures Search(p, body).None? <==> Nowhere(p, body)
    ensures Search(p, body).Some? ==> exists i :: FirstAt(p, body, i, Search(p, body).value)
  {
    var i := SearchIsLeftmost(p, body);
    if Search(p, body).Some? {
      assert FirstAt(p, body, i, Search(p, body).value);
    } else {
      assert forall k :: 0 <= k <= |body| ==> MatchAt(p, body[k..]).None?;
    }
  }

  function TxidOf(g: GatewayId): Pattern { if g == Bkash then BkashTxid() else NagadTxid() }
  function AmountPatternOf(g: GatewayId): Pattern { if g == Bkash then BkashAmount() else NagadAmount() }
  function SenderOf(g: GatewayId): Pattern { if g == Bkash then BkashSender() else NagadSender() }

  /** Which messages are read, as what, and why the others are not: the id and the amount must be
      there and the amount readable, and the sender is whoever is named, if anyone. */
  lemma ParseMeans(g: GatewayId, body: string)
    ensures Nowhere(TxidOf(g), body) || Nowhere(AmountPatternOf(g), body) <==> ParseSms(g, body) == Err(NoMatch(g))
    ensures ParseSms(g, body).Err? ==> ParseSms(g, body).error == NoMatch(g) || ParseSms(g, body).error == BadAmount
    ensures ParseSms(g, body) == Err(BadAmount)
       ==> exists i, raw :: FirstAt(AmountPatternOf(g), body, i, raw) && AmountToMinor(raw).Err?
    ensures ParseSms(g, body).Ok? ==>
      var p := ParseSms(g, body).value;
      && p.gateway == g
      && (exists i :: FirstAt(TxidOf(g), body, i, p.txnId))
      && (exists i, raw :: FirstAt(AmountPatternOf(g), body, i, raw) && AmountToMinor(raw) == Ok(p.amountMinor))
      && (p.senderMsisdn.None? <==> Nowhere(SenderOf(g), body))
      && (p.senderMsisdn.Some? ==> exists i :: FirstAt(SenderOf(g), body, i, p.senderMsisdn.value))
  {
    SearchIff(TxidOf(g), body);
    SearchIff(AmountPatternOf(g), body);
    SearchIff(SenderOf(g), body);
  }
}
