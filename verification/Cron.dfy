// Access windows: a five-field cron expression read as a mask over the current time.
module Cron {
  import opened Arith
  import opened Base
  import opened Text

  // Sunday is day 0 of the week.
  datatype Moment = Moment(minute: nat, hour: nat, day: nat, month: nat, weekday: nat)

  datatype Malformed = FieldCount | BadStep | ZeroStep | BadRange | BadValue

  // `lo`, `lo + step`, ... up to `hi`.
  datatype Stepped = Stepped(lo: nat, hi: nat, step: nat)

  predicate Has(r: Stepped, v: nat) {
    r.step > 0 && r.lo <= v <= r.hi && (v - r.lo) % r.step == 0
  }

  // Those are its values.
  lemma HasMeaning(r: Stepped, v: nat)
    requires r.step > 0
    ensures Has(r, v) <==> exists i: nat :: v == r.lo + i * r.step && v <= r.hi
  {
    if Has(r, v) {
      var i := (v - r.lo) / r.step;
      assert v == r.lo + i * r.step;
    }
    forall i: nat | v == r.lo + i * r.step && v <= r.hi
      ensures Has(r, v)
    {
      MultipleHasNoRest(i, r.step);
    }
  }

  lemma MultipleHasNoRest(i: nat, n: nat)
    requires n > 0
    ensures (i * n) % n == 0 && i * n >= 0
  {
    DivideUnique(i * n, n, i, 0);
  }

  // ----- scanning one field ----------------------------------------------------------

  function ParseRange(range: string, min: nat, max: nat): Result<(nat, nat), Malformed> {
    if range == "*" then Ok((min, max))
    else match SplitOnce(range, '-')
      case Some((a, b)) =>
        (match (ParseUnsigned(a, U32_LIMIT), ParseUnsigned(b, U32_LIMIT))
         case (Some(lo), Some(hi)) => Ok((lo, hi))
         case _ => Err(BadRange))
      case None =>
        (match ParseUnsigned(range, U32_LIMIT)
         case Some(v) => Ok((v, v))
         case None => Err(BadValue))
  }

  function ParseStep(term: string): Result<(string, nat), Malformed> {
    match SplitOnce(term, '/')
    case None => Ok((term, 1))
    case Some((range, s)) =>
      match ParseUnsigned(s, U32_LIMIT)
      case None => Err(BadStep)
      case Some(step) => Ok((range, step))
  }

  function ParseTerm(term: string, min: nat, max: nat): (r: Result<Stepped, Malformed>)
    ensures r.Ok? ==> r.value.step > 0
  {
    match ParseStep(term)
    case Err(e) => Err(e)
    case Ok((range, step)) =>
      if step == 0 then Err(ZeroStep)
      else match ParseRange(range, min, max)
        case Err(e) => Err(e)
        case Ok((lo, hi)) => Ok(Stepped(lo, hi, step))
  }

  // The first term that is malformed or has the value decides.
  function ScanTerms(terms: seq<string>, val: nat, min: nat, max: nat): Result<bool, Malformed> {
    if terms == [] then Ok(false)
    else match ParseTerm(terms[0], min, max)
      case Err(e) => Err(e)
      case Ok(r) => if Has(r, val) then Ok(true) else ScanTerms(terms[1..], val, min, max)
  }

  function ScanField(field: string, val: nat, min: nat, max: nat): Result<bool, Malformed> {
    ScanTerms(Split(field, ','), val, min, max)
  }

  method CronField(field: string, val: nat, min: nat, max: nat) returns (r: Result<bool, Malformed>)
    ensures r == ScanField(field, val, min, max)
  {
    var terms := Split(field, ',');
    var i := 0;
    assert terms[0..] == terms;
    while i < |terms|
      invariant 0 <= i <= |terms|
      invariant ScanTerms(terms[i..], val, min, max) == ScanField(field, val, min, max)
    {
      var split :- ParseStep(terms[i]);
      var (range, step) := split;
      if step == 0 {
        return Err(ZeroStep);
      }
      var bounds :- ParseRange(range, min, max);
      var (lo, hi) := bounds;
      if lo <= val <= hi && (val - lo) % step == 0 {
        return Ok(true);
      }
      assert terms[i..][1..] == terms[i + 1..];
      i := i + 1;
    }
    return Ok(false);
  }

  // ----- the whole expression --------------------------------------------------------

  // A later answer counts only when the earlier one is true.
  function AndThen(r: Result<bool, Malformed>, rest: Result<bool, Malformed>): Result<bool, Malformed> {
    if r == Ok(true) then rest else r
  }

  // A later field is not looked at once an earlier one fails; on Sunday the last field is
  // looked at as day 7 too.
  function ScanFields(f: seq<string>, now: Moment): Result<bool, Malformed>
    requires |f| == 5
  {
    AndThen(ScanField(f[0], now.minute, 0, 59),
    AndThen(ScanField(f[1], now.hour, 0, 23),
    AndThen(ScanField(f[2], now.day, 1, 31),
    AndThen(ScanField(f[3], now.month, 1, 12), ScanWeekday(f[4], now.weekday)))))
  }

  function ScanWeekday(field: string, weekday: nat): Result<bool, Malformed> {
    match ScanField(field, weekday, 0, 6)
    case Err(e) => Err(e)
    case Ok(b) => if b then Ok(true) else if weekday == 0 then ScanField(field, 7, 0, 7) else Ok(false)
  }

  function ScanExpression(expr: string, now: Moment): Result<bool, Malformed> {
    if |Words(expr)| != 5 then Err(FieldCount) else ScanFields(Words(expr), now)
  }

  method CronWindowMatches(expr: string, now: Moment) returns (r: Result<bool, Malformed>)
    ensures r == ScanExpression(expr, now)
  {
    var f := Words(expr);
    if |f| != 5 {
      return Err(FieldCount);
    }
    var ok :- CronField(f[0], now.minute, 0, 59);
    if ok {
      ok :- CronField(f[1], now.hour, 0, 23);
    }
    if ok {
      ok :- CronField(f[2], now.day, 1, 31);
    }
    if ok {
      ok :- CronField(f[3], now.month, 1, 12);
    }
    if ok {
      ok :- CronField(f[4], now.weekday, 0, 6);
      if !ok && now.weekday == 0 {
        ok :- CronField(f[4], 7, 0, 7);
      }
    }
    return Ok(ok);
  }

  // ----- what the answers mean -------------------------------------------------------

  predicate WellFormed(field: string, min: nat, max: nat) {
    forall k: nat :: k < |Split(field, ',')| ==> Parses(Split(field, ','), k, min, max)
  }

  // Some term of the field is well formed and has the value.
  predicate InUnion(field: string, val: nat, min: nat, max: nat) {
    exists k: nat :: k < |Split(field, ',')| && HasTerm(Split(field, ','), k, val, min, max)
  }

  predicate Parses(terms: seq<string>, k: nat, min: nat, max: nat)
    requires k < |terms|
  {
    ParseTerm(terms[k], min, max).Ok?
  }

  predicate HasTerm(terms: seq<string>, k: nat, val: nat, min: nat, max: nat)
    requires k < |terms|
  {
    Parses(terms, k, min, max) && Has(ParseTerm(terms[k], min, max).value, val)
  }

  // Exactly which term decides, and how: the first that is malformed or has the value.
  lemma {:induction false} ScanTermsExact(terms: seq<string>, val: nat, min: nat, max: nat)
    ensures match ScanTerms(terms, val, min, max)
            case Ok(true) => exists k: nat :: k < |terms| && HasTerm(terms, k, val, min, max)
            case Ok(false) => forall k: nat :: k < |terms| ==> Parses(terms, k, min, max) && !HasTerm(terms, k, val, min, max)
            case Err(_) => exists k: nat :: k < |terms| && !Parses(terms, k, min, max)
  {
    if terms != [] {
      var rest := terms[1..];
      ScanTermsExact(rest, val, min, max);
      forall k: nat | k < |rest|
        ensures Parses(terms, k + 1, min, max) == Parses(rest, k, min, max)
        ensures HasTerm(terms, k + 1, val, min, max) == HasTerm(rest, k, val, min, max)
      {
      }
      if !Parses(terms, 0, min, max) || HasTerm(terms, 0, val, min, max) {
        assert ScanTerms(terms, val, min, max) == if Parses(terms, 0, min, max) then Ok(true) else Err(ParseTerm(terms[0], min, max).error);
      } else {
        assert ScanTerms(terms, val, min, max) == ScanTerms(rest, val, min, max);
        forall k: nat | 0 < k < |terms|
          ensures Parses(terms, k, min, max) == Parses(rest, k - 1, min, max)
          ensures HasTerm(terms, k, val, min, max) == HasTerm(rest, k - 1, val, min, max)
        {
        }
      }
    }
  }

  // An answer that means membership: right when everything is well formed, never wrongly true,
  // and an error only when something is malformed.
  predicate Means(r: Result<bool, Malformed>, wellFormed: bool, member: bool) {
    && (wellFormed ==> r == Ok(member))
    && (r == Ok(true) ==> member)
    && (r.Err? ==> !wellFormed)
  }

  lemma FieldMeaning(field: string, val: nat, min: nat, max: nat)
    ensures Means(ScanField(field, val, min, max), WellFormed(field, min, max), InUnion(field, val, min, max))
  {
    ScanTermsExact(Split(field, ','), val, min, max);
  }

  lemma BothMean(r: Result<bool, Malformed>, rest: Result<bool, Malformed>, w1: bool, m1: bool, w2: bool, m2: bool)
    requires Means(r, w1, m1) && Means(rest, w2, m2)
    ensures Means(AndThen(r, rest), w1 && w2, m1 && m2)
  {
  }

  lemma WeekdayMeaning(field: string, weekday: nat)
    ensures Means(ScanWeekday(field, weekday), WellFormed(field, 0, 6) && WellFormed(field, 0, 7), WeekdayIn(field, weekday))
  {
    FieldMeaning(field, weekday, 0, 6);
    FieldMeaning(field, 7, 0, 7);
  }

  predicate WeekdayIn(field: string, weekday: nat) {
    InUnion(field, weekday, 0, 6) || (weekday == 0 && InUnion(field, 7, 0, 7))
  }

  predicate InWindow(f: seq<string>, now: Moment)
    requires |f| == 5
  {
    && InUnion(f[0], now.minute, 0, 59) && InUnion(f[1], now.hour, 0, 23) && InUnion(f[2], now.day, 1, 31)
    && InUnion(f[3], now.month, 1, 12) && WeekdayIn(f[4], now.weekday)
  }

  predicate AllWellFormed(f: seq<string>)
    requires |f| == 5
  {
    && WellFormed(f[0], 0, 59) && WellFormed(f[1], 0, 23) && WellFormed(f[2], 1, 31)
    && WellFormed(f[3], 1, 12) && WellFormed(f[4], 0, 6) && WellFormed(f[4], 0, 7)
  }

  // Well-formed schedules mean membership in every field's union of stepped ranges; on any
  // text at all, true means membership and an error means something is malformed.
  lemma WindowMeaning(expr: string, now: Moment)
    ensures var f, r := Words(expr), ScanExpression(expr, now);
            if |f| == 5 then Means(r, AllWellFormed(f), InWindow(f, now)) else r == Err(FieldCount)
  {
    var f := Words(expr);
    if |f| == 5 {
      FieldsMeaning(f, now);
    }
  }

  lemma DateMeaning(f: seq<string>, now: Moment)
    requires |f| == 5
    ensures var scanned := AndThen(ScanField(f[2], now.day, 1, 31),
                                   AndThen(ScanField(f[3], now.month, 1, 12), ScanWeekday(f[4], now.weekday)));
            Means(scanned,
                  WellFormed(f[2], 1, 31) && (WellFormed(f[3], 1, 12) && WellFormed(f[4], 0, 6) && WellFormed(f[4], 0, 7)),
                  InUnion(f[2], now.day, 1, 31) && (InUnion(f[3], now.month, 1, 12) && WeekdayIn(f[4], now.weekday)))
  {
    var day, month, weekday := ScanField(f[2], now.day, 1, 31), ScanField(f[3], now.month, 1, 12), ScanWeekday(f[4], now.weekday);
    FieldMeaning(f[2], now.day, 1, 31);
    FieldMeaning(f[3], now.month, 1, 12);
    WeekdayMeaning(f[4], now.weekday);
    var w3, m3 := WellFormed(f[3], 1, 12), InUnion(f[3], now.month, 1, 12);
    var w4, m4 := WellFormed(f[4], 0, 6) && WellFormed(f[4], 0, 7), WeekdayIn(f[4], now.weekday);
    BothMean(month, weekday, w3, m3, w4, m4);
    BothMean(day, AndThen(month, weekday), WellFormed(f[2], 1, 31), InUnion(f[2], now.day, 1, 31), w3 && w4, m3 && m4);
  }

  lemma FieldsMeaning(f: seq<string>, now: Moment)
    requires |f| == 5
    ensures Means(ScanFields(f, now), AllWellFormed(f), InWindow(f, now))
  {
    var minute, hour := ScanField(f[0], now.minute, 0, 59), ScanField(f[1], now.hour, 0, 23);
    var date := AndThen(ScanField(f[2], now.day, 1, 31),
                        AndThen(ScanField(f[3], now.month, 1, 12), ScanWeekday(f[4], now.weekday)));
    var w2 := WellFormed(f[2], 1, 31) && (WellFormed(f[3], 1, 12) && WellFormed(f[4], 0, 6) && WellFormed(f[4], 0, 7));
    var m2 := InUnion(f[2], now.day, 1, 31) && (InUnion(f[3], now.month, 1, 12) && WeekdayIn(f[4], now.weekday));
    FieldMeaning(f[0], now.minute, 0, 59);
    FieldMeaning(f[1], now.hour, 0, 23);
    DateMeaning(f, now);
    BothMean(hour, date, WellFormed(f[1], 0, 23), InUnion(f[1], now.hour, 0, 23), w2, m2);
    BothMean(minute, AndThen(hour, date), WellFormed(f[0], 0, 59), InUnion(f[0], now.minute, 0, 59),
             WellFormed(f[1], 0, 23) && w2, InUnion(f[1], now.hour, 0, 23) && m2);
  }

  // ----- written schedules -----------------------------------------------------------

  datatype Range = Every | Single(v: nat) | Between(a: nat, b: nat)

  datatype Term = Term(range: Range, step: Option<nat>)

  function ShowRange(r: Range): string {
    match r
    case Every => "*"
    case Single(v) => Decimal(v)
    case Between(a, b) => Decimal(a) + "-" + Decimal(b)
  }

  function ShowTerm(t: Term): string {
    match t.step
    case None => ShowRange(t.range)
    case Some(n) => ShowRange(t.range) + "/" + Decimal(n)
  }

  predicate Representable(t: Term) {
    && (t.step.Some? ==> 0 < t.step.value < U32_LIMIT)
    && match t.range {
         case Every => true
         case Single(v) => v < U32_LIMIT
         case Between(a, b) => a < U32_LIMIT && b < U32_LIMIT
       }
  }

  function Denotes(t: Term, min: nat, max: nat): Stepped {
    var step := if t.step.Some? then t.step.value else 1;
    match t.range
    case Every => Stepped(min, max, step)
    case Single(v) => Stepped(v, v, step)
    case Between(a, b) => Stepped(a, b, step)
  }

  lemma DecimalHasNo(n: nat, c: char)
    requires !IsDigit(c)
    ensures c !in Decimal(n)
  {
  }

  lemma SingleParses(v: nat, min: nat, max: nat)
    requires v < U32_LIMIT
    ensures ParseRange(Decimal(v), min, max) == Ok((v, v))
  {
    DecimalHasNo(v, '-');
    SplitOnceNone(Decimal(v), '-');
    ParseDecimal(v, U32_LIMIT);
    assert IsDigit(Decimal(v)[0]);
  }

  lemma BetweenParses(a: nat, b: nat, min: nat, max: nat)
    requires a < U32_LIMIT && b < U32_LIMIT
    ensures ParseRange(Decimal(a) + "-" + Decimal(b), min, max) == Ok((a, b))
  {
    var shown := Decimal(a) + "-" + Decimal(b);
    DecimalHasNo(a, '-');
    SplitOnceAt(Decimal(a), '-', Decimal(b));
    ParseDecimal(a, U32_LIMIT);
    ParseDecimal(b, U32_LIMIT);
    assert IsDigit(shown[0]);
  }

  lemma RangeHasNo(r: Range, c: char)
    requires c == '/' || c == ','
    ensures c !in ShowRange(r)
  {
    match r
    case Every =>
    case Single(v) => DecimalHasNo(v, c);
    case Between(a, b) =>
      DecimalHasNo(a, c);
      DecimalHasNo(b, c);
  }

  lemma RangeParses(r: Range, min: nat, max: nat)
    requires Representable(Term(r, None))
    ensures var d := Denotes(Term(r, None), min, max);
            ParseRange(ShowRange(r), min, max) == Ok((d.lo, d.hi))
  {
    match r
    case Every =>
    case Single(v) => SingleParses(v, min, max);
    case Between(a, b) => BetweenParses(a, b, min, max);
  }

  lemma TermParses(t: Term, min: nat, max: nat)
    requires Representable(t)
    ensures ParseTerm(ShowTerm(t), min, max) == Ok(Denotes(t, min, max))
    ensures ',' !in ShowTerm(t)
  {
    RangeParses(t.range, min, max);
    RangeHasNo(t.range, '/');
    RangeHasNo(t.range, ',');
    match t.step
    case None =>
      SplitOnceNone(ShowRange(t.range), '/');
    case Some(n) =>
      SplitOnceAt(ShowRange(t.range), '/', Decimal(n));
      ParseDecimal(n, U32_LIMIT);
      DecimalHasNo(n, ',');
  }

  // Some term of the list denotes a range with the value.
  predicate SomeDenotes(terms: seq<Term>, val: nat, min: nat, max: nat) {
    exists k: nat :: k < |terms| && Has(Denotes(terms[k], min, max), val)
  }

  lemma ScanOfShown(terms: seq<Term>, shown: seq<string>, val: nat, min: nat, max: nat)
    requires |shown| == |terms|
    requires forall k: nat :: k < |terms| ==> ParseTerm(shown[k], min, max) == Ok(Denotes(terms[k], min, max))
    ensures ScanTerms(shown, val, min, max) == Ok(SomeDenotes(terms, val, min, max))
  {
    ScanTermsExact(shown, val, min, max);
    forall k: nat | k < |terms|
      ensures Parses(shown, k, min, max) && HasTerm(shown, k, val, min, max) == Has(Denotes(terms[k], min, max), val)
    {
    }
  }

  // A field written from a list of terms is the union of the ranges they denote.
  lemma WrittenFieldMeaning(terms: seq<Term>, val: nat, min: nat, max: nat)
    requires terms != [] && forall k :: 0 <= k < |terms| ==> Representable(terms[k])
    ensures ScanField(Join(seq(|terms|, k requires 0 <= k < |terms| => ShowTerm(terms[k])), ','), val, min, max)
            == Ok(SomeDenotes(terms, val, min, max))
  {
    var shown := seq(|terms|, k requires 0 <= k < |terms| => ShowTerm(terms[k]));
    forall k: nat | k < |terms|
      ensures ParseTerm(shown[k], min, max) == Ok(Denotes(terms[k], min, max)) && ',' !in shown[k]
    {
      TermParses(terms[k], min, max);
    }
    SplitJoin(shown, ',');
    ScanOfShown(terms, shown, val, min, max);
  }

  function ShowField(terms: seq<Term>): string
    requires terms != []
  {
    Join(seq(|terms|, k requires 0 <= k < |terms| => ShowTerm(terms[k])), ',')
  }

  predicate WrittenField(terms: seq<Term>) {
    terms != [] && forall k :: 0 <= k < |terms| ==> Representable(terms[k])
  }

  lemma {:induction false} JoinHasNoSpace(parts: seq<string>, c: char)
    requires parts != [] && !IsSpace(c) && forall i :: 0 <= i < |parts| ==> IsWord(parts[i])
    ensures IsWord(Join(parts, c))
  {
    if |parts| > 1 {
      JoinHasNoSpace(parts[1..], c);
    }
  }

  lemma TermIsWord(t: Term)
    ensures IsWord(ShowTerm(t))
  {
    forall n: nat
      ensures IsWord(Decimal(n))
    {
    }
  }

  lemma FieldIsWord(terms: seq<Term>)
    requires terms != []
    ensures IsWord(ShowField(terms))
  {
    var shown := seq(|terms|, k requires 0 <= k < |terms| => ShowTerm(terms[k]));
    forall k | 0 <= k < |shown|
      ensures IsWord(shown[k])
    {
      TermIsWord(terms[k]);
    }
    JoinHasNoSpace(shown, ',');
  }

  datatype Schedule = Schedule(minutes: seq<Term>, hours: seq<Term>, days: seq<Term>, months: seq<Term>, weekdays: seq<Term>)

  predicate WrittenSchedule(s: Schedule) {
    && WrittenField(s.minutes) && WrittenField(s.hours) && WrittenField(s.days) && WrittenField(s.months)
    && WrittenField(s.weekdays)
  }

  function ShownFields(s: Schedule): (shown: seq<string>)
    requires WrittenSchedule(s)
    ensures |shown| == 5
  {
    [ShowField(s.minutes), ShowField(s.hours), ShowField(s.days), ShowField(s.months), ShowField(s.weekdays)]
  }

  // A schedule written from five lists of terms contains exactly the moments whose every field is
  // in its list's union, Sunday counting as 0 and as 7.
  lemma WrittenScheduleMeaning(s: Schedule, now: Moment)
    requires WrittenSchedule(s)
    ensures ScanExpression(Join(ShownFields(s), ' '), now)
            == Ok(&& SomeDenotes(s.minutes, now.minute, 0, 59) && SomeDenotes(s.hours, now.hour, 0, 23)
                  && SomeDenotes(s.days, now.day, 1, 31) && SomeDenotes(s.months, now.month, 1, 12)
                  && (SomeDenotes(s.weekdays, now.weekday, 0, 6)
                      || (now.weekday == 0 && SomeDenotes(s.weekdays, 7, 0, 7))))
  {
    var shown := ShownFields(s);
    FieldIsWord(s.minutes);
    FieldIsWord(s.hours);
    FieldIsWord(s.days);
    FieldIsWord(s.months);
    FieldIsWord(s.weekdays);
    WordsOfJoined(shown);
    WrittenFieldMeaning(s.minutes, now.minute, 0, 59);
    WrittenFieldMeaning(s.hours, now.hour, 0, 23);
    WrittenFieldMeaning(s.days, now.day, 1, 31);
    WrittenFieldMeaning(s.months, now.month, 1, 12);
    WrittenFieldMeaning(s.weekdays, now.weekday, 0, 6);
    WrittenFieldMeaning(s.weekdays, 7, 0, 7);
  }

  // A step of zero is refused, whatever it is a step of.
  lemma ZeroStepIsRefused(r: Range, min: nat, max: nat)
    ensures ParseTerm(ShowRange(r) + "/" + Decimal(0), min, max) == Err(ZeroStep)
  {
    RangeHasNo(r, '/');
    SplitOnceAt(ShowRange(r), '/', Decimal(0));
    ParseDecimal(0, U32_LIMIT);
  }
}
