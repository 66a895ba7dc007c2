/** The checks a draft passes before it is sent: a strict import date,
    a name of at most 100 characters, a positive integer quantity and an
    import date that is not later than today. They run in that order and
    the first one that fails decides the single message shown. */
module Validation {
  import opened Optional
  import opened Dates
  import opened Products

  datatype Reason = InvalidDateFormat | NameTooLong | QuantityNotPositiveInteger | DateInFuture

  /** The message the user sees for each reason. */
  function Text(r: Reason): string {
    match r
    case InvalidDateFormat => "Invalid date format. Use DD/MM/YYYY"
    case NameTooLong => "Product name must not exceed 100 characters"
    case QuantityNotPositiveInteger => "Quantity must be a positive integer"
    case DateInFuture => "Import date cannot be in the future"
  }

  datatype Verdict = Accepted(date: Date) | Rejected(reason: Reason)

  const MaxNameLength := 100

  /** The quantity is a whole number of at least one. */
  predicate IsPositiveInteger(q: real) {
    q > 0.0 && q == q.Floor as real
  }

  /** The position of each check in the order in which they run. */
  function Rank(r: Reason): nat {
    match r
    case InvalidDateFormat => 0
    case NameTooLong => 1
    case QuantityNotPositiveInteger => 2
    case DateInFuture => 3
  }

  /** Whether check `r`, taken on its own, rejects draft `p`. The future-date
      check can only speak about a date that was read. */
  predicate Fails(r: Reason, p: Product, today: Date) {
    match r
    case InvalidDateFormat => ParseStrict(p.importDate).None?
    case NameTooLong => |p.name| > MaxNameLength
    case QuantityNotPositiveInteger => !IsPositiveInteger(p.quantity)
    case DateInFuture => ParseStrict(p.importDate).Some? && IsAfter(ParseStrict(p.importDate).value, today)
  }

  /** The validation pipeline as the save handler runs it. */
  function Validate(p: Product, today: Date): (v: Verdict)
    ensures v.Rejected? <==> exists r :: Fails(r, p, today)
    ensures v.Rejected? ==> Fails(v.reason, p, today)
    ensures v.Rejected? ==> forall r :: Rank(r) < Rank(v.reason) ==> !Fails(r, p, today)
    ensures v.Accepted? ==> && ParseStrict(p.importDate) == Some(v.date)
                            && Format(v.date) == p.importDate
                            && |p.name| <= MaxNameLength
                            && IsPositiveInteger(p.quantity)
                            && !IsAfter(v.date, today)
  {
    match ParseStrict(p.importDate)
    case None =>
      assert Fails(InvalidDateFormat, p, today);
      Rejected(InvalidDateFormat)
    case Some(date) =>
      if |p.name| > MaxNameLength then
        assert Fails(NameTooLong, p, today);
        Rejected(NameTooLong)
      else if p.quantity <= 0.0 || p.quantity != p.quantity.Floor as real then
        assert Fails(QuantityNotPositiveInteger, p, today);
        Rejected(QuantityNotPositiveInteger)
      else if IsAfter(date, today) then
        assert Fails(DateInFuture, p, today);
        Rejected(DateInFuture)
      else
        Accepted(date)
  }

  /** Exactly one message per failed attempt: the first failing check in order. */
  lemma FirstFailureDecides(p: Product, today: Date, r: Reason)
    ensures Validate(p, today) == Rejected(r) <==>
            Fails(r, p, today) && forall s :: Rank(s) < Rank(r) ==> !Fails(s, p, today)
  {
    if Fails(r, p, today) {
      assert Validate(p, today).Rejected?;
    }
  }

  /** A name over 100 characters is reported whenever the date was readable,
      whatever the quantity and the date's value. */
  lemma LongNameReported(p: Product, today: Date)
    requires ParseStrict(p.importDate).Some?
    requires |p.name| > MaxNameLength
    ensures Validate(p, today) == Rejected(NameTooLong)
  {
  }

  /** The quantity rule passes exactly the whole numbers from one up. */
  lemma PositiveIntegerMeansAtLeastOne(q: real)
    ensures IsPositiveInteger(q) <==> q >= 1.0 && q == q.Floor as real
  {
  }

  /** Today's date and any earlier date pass the future-date check. */
  lemma TodayIsNotInTheFuture(p: Product, today: Date)
    requires ParseStrict(p.importDate).Some? && !IsAfter(ParseStrict(p.importDate).value, today)
    requires |p.name| <= MaxNameLength && IsPositiveInteger(p.quantity)
    ensures Validate(p, today) == Accepted(ParseStrict(p.importDate).value)
  {
  }

  lemma ImpossibleDateRejected(p: Product, today: Date)
    requires p.importDate == "31/02/2024"
    ensures Validate(p, today) == Rejected(InvalidDateFormat)
  {
    NoThirtyFirstOfFebruary();
  }

  lemma AcceptedExample()
    ensures Validate(Product(NoId, "C1", "Shirt", "01/01/2020", 5.0, 1), Date(16, 10, 2026))
            == Accepted(Date(1, 1, 2020))
  {
    AcceptedExampleDate();
  }

  lemma AcceptedExampleDate()
    ensures ParseStrict("01/01/2020") == Some(Date(1, 1, 2020))
  {
    ParseFields("01/01/2020");
  }

  lemma FutureExample()
    ensures Validate(Product(NoId, "C1", "Shirt", "01/01/2999", 5.0, 1), Date(16, 10, 2026))
            == Rejected(DateInFuture)
  {
    ParseFields("01/01/2999");
  }
}
