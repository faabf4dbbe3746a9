/**
  The Subscription entity (src/main/java/com/demo/entities/Subscription.java) and the
  SubscriptionType enum (src/main/java/com/demo/enums/SubscriptionType.java).

  A Java reference field that may be null is an Option; the primitive int dayOfMonth has no
  absent value and starts at 0; the List<String> of invoice dates is a sequence of strings.
*/
module Entities {
  import opened Outcomes
  import opened Calendar
  import opened Text

  /** The cadence of a subscription. */
  datatype SubscriptionType = DAILY | WEEKLY | MONTHLY

  /** All the fields of a Subscription object at one moment. The Java field "type" is called
      subscriptionType here, as "type" is a keyword of the modelling language. */
  datatype Record = Record(
    amount: Option<Decimal>,
    subscriptionType: Option<SubscriptionType>,
    dayOfWeek: Option<DayOfWeek>,
    dayOfMonth: Int32,
    startDate: Option<Date>,
    endDate: Option<Date>,
    invoiceDateList: Option<seq<string>>)

  /** The fields of a newly constructed Subscription: Java's default values. */
  const EMPTY_RECORD: Record := Record(None, None, None, 0, None, None, None)

  /** A Subscription object, whose setters overwrite one field each. */
  class Subscription {
    var amount: Option<Decimal>
    var subscriptionType: Option<SubscriptionType>
    var dayOfWeek: Option<DayOfWeek>
    var dayOfMonth: Int32
    var startDate: Option<Date>
    var endDate: Option<Date>
    var invoiceDateList: Option<seq<string>>

    /** The implicit no-argument constructor: every reference field null, dayOfMonth 0. */
    constructor ()
      ensures Snapshot() == EMPTY_RECORD
    {
      amount := None;
      subscriptionType := None;
      dayOfWeek := None;
      dayOfMonth := 0;
      startDate := None;
      endDate := None;
      invoiceDateList := None;
    }

    /** The current values of all the fields. */
    function Snapshot(): Record
      reads this
    {
      Record(amount, subscriptionType, dayOfWeek, dayOfMonth, startDate, endDate, invoiceDateList)
    }

    // Getters: each reads the current value of its field.

    function GetAmount(): Option<Decimal>
      reads this
    {
      amount
    }

    function GetType(): Option<SubscriptionType>
      reads this
    {
      subscriptionType
    }

    function GetDayOfWeek(): Option<DayOfWeek>
      reads this
    {
      dayOfWeek
    }

    function GetDayOfMonth(): Int32
      reads this
    {
      dayOfMonth
    }

    function GetStartDate(): Option<Date>
      reads this
    {
      startDate
    }

    function GetEndDate(): Option<Date>
      reads this
    {
      endDate
    }

    function GetInvoiceDateList(): Option<seq<string>>
      reads this
    {
      invoiceDateList
    }

    /** Each getter returns the current value of its own field. */
    lemma GettersReadFields()
      ensures Snapshot() == Record(GetAmount(), GetType(), GetDayOfWeek(), GetDayOfMonth(),
                                   GetStartDate(), GetEndDate(), GetInvoiceDateList())
    {
    }

    // Setters: each overwrites its own field; the frame lets no other field change, and the
    // getter of the field then returns the value set.

    method SetAmount(value: Option<Decimal>)
      modifies this`amount
      ensures GetAmount() == value
      ensures Snapshot() == old(Snapshot()).(amount := value)
    {
      amount := value;
    }

    method SetType(value: Option<SubscriptionType>)
      modifies this`subscriptionType
      ensures GetType() == value
      ensures Snapshot() == old(Snapshot()).(subscriptionType := value)
    {
      subscriptionType := value;
    }

    method SetDayOfWeek(value: Option<DayOfWeek>)
      modifies this`dayOfWeek
      ensures GetDayOfWeek() == value
      ensures Snapshot() == old(Snapshot()).(dayOfWeek := value)
    {
      dayOfWeek := value;
    }

    method SetDayOfMonth(value: Int32)
      modifies this`dayOfMonth
      ensures GetDayOfMonth() == value
      ensures Snapshot() == old(Snapshot()).(dayOfMonth := value)
    {
      dayOfMonth := value;
    }

    method SetStartDate(value: Option<Date>)
      modifies this`startDate
      ensures GetStartDate() == value
      ensures Snapshot() == old(Snapshot()).(startDate := value)
    {
      startDate := value;
    }

    method SetEndDate(value: Option<Date>)
      modifies this`endDate
      ensures GetEndDate() == value
      ensures Snapshot() == old(Snapshot()).(endDate := value)
    {
      endDate := value;
    }

    method SetInvoiceDateList(value: Option<seq<string>>)
      modifies this`invoiceDateList
      ensures GetInvoiceDateList() == value
      ensures Snapshot() == old(Snapshot()).(invoiceDateList := value)
    {
      invoiceDateList := value;
    }
  }
}
