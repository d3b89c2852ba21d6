/**
  The event notifier of the order service. The service publishes a
  human-readable string on the `orders` topic for each lifecycle change
  (main.py, `send_kafka_message`). The producer, its delivery callback and
  its polling are network I/O and are not modelled: publishing is appending
  the rendered text to a log. This module fixes the text of each message and
  proves that the text identifies the event (it can be parsed back), which is
  what lets a consumer deduplicate by order id and event kind.
*/
module Notifications {
  import opened Wrappers

  /** The four messages the service emits, each with the id it carries. */
  datatype Event =
    | OrderCreated(orderId: nat)
    | OrderUpdated(orderId: nat)
    | OrderDeleted(orderId: nat)
    | DetailCreated(detailId: nat)

  const CreatedPrefix: string := "Order created: "
  const UpdatedPrefix: string := "Order updated: "
  const DeletedPrefix: string := "Order deleted: "
  const DetailPrefix: string := "Order detail created: "

  predicate IsDigit(c: char) {
    '0' <= c <= '9'
  }

  predicate AllDigits(s: string) {
    forall i :: 0 <= i < |s| ==> IsDigit(s[i])
  }

  function DigitChar(d: nat): (c: char)
    requires d < 10
    ensures IsDigit(c) && c as int - '0' as int == d
  {
    ('0' as int + d) as char
  }

  /** Python's decimal rendering of a non-negative int, as an f-string gives it. */
  function Decimal(n: nat): (s: string)
    ensures |s| >= 1 && AllDigits(s)
    ensures n > 0 ==> s[0] != '0'
    ensures n == 0 ==> s == "0"
  {
    if n < 10 then [DigitChar(n)] else Decimal(n / 10) + [DigitChar(n % 10)]
  }

  /** The number a string of decimal digits denotes. */
  function DecimalValue(s: string): nat
    requires AllDigits(s)
  {
    if s == [] then 0
    else DecimalValue(s[..|s| - 1]) * 10 + (s[|s| - 1] as int - '0' as int)
  }

  lemma {:induction false} DecimalRoundTrip(n: nat)
    ensures DecimalValue(Decimal(n)) == n
  {
    if n >= 10 {
      var s := Decimal(n);
      assert s[..|s| - 1] == Decimal(n / 10);
      DecimalRoundTrip(n / 10);
    }
  }

  function Prefix(e: Event): string {
    match e
    case OrderCreated(_) => CreatedPrefix
    case OrderUpdated(_) => UpdatedPrefix
    case OrderDeleted(_) => DeletedPrefix
    case DetailCreated(_) => DetailPrefix
  }

  function Id(e: Event): nat {
    match e
    case OrderCreated(id) => id
    case OrderUpdated(id) => id
    case OrderDeleted(id) => id
    case DetailCreated(id) => id
  }

  /** The payload published for an event (main.py:200, 224, 234, 244). */
  function Text(e: Event): (s: string)
    ensures |s| > |Prefix(e)| && s[..|Prefix(e)|] == Prefix(e)
    ensures AllDigits(s[|Prefix(e)|..])
  {
    Prefix(e) + Decimal(Id(e))
  }

  /** Reads the number after `prefix` when `s` is `prefix` followed by digits. */
  function After(s: string, prefix: string): (r: Option<nat>)
    ensures r.Some? ==> |s| > |prefix| && s[..|prefix|] == prefix
  {
    if |s| > |prefix| && s[..|prefix|] == prefix && AllDigits(s[|prefix|..])
    then Some(DecimalValue(s[|prefix|..]))
    else None
  }

  /** A consumer's reading of a payload back into the event it announces. */
  function Parse(s: string): Option<Event> {
    match After(s, CreatedPrefix)
    case Some(id) => Some(OrderCreated(id))
    case None =>
      match After(s, UpdatedPrefix)
      case Some(id) => Some(OrderUpdated(id))
      case None =>
        match After(s, DeletedPrefix)
        case Some(id) => Some(OrderDeleted(id))
        case None =>
          match After(s, DetailPrefix)
          case Some(id) => Some(DetailCreated(id))
          case None => None
  }

  /** Two prefixes that disagree within their common length never both start one string. */
  lemma PrefixesClash(s: string, p: string, q: string, k: nat)
    requires k < |p| && k < |q| && p[k] != q[k]
    requires |s| > |p| && s[..|p|] == p
    ensures !(|s| > |q| && s[..|q|] == q)
  {
    assert s[k] == s[..|p|][k];
    if |s| > |q| {
      assert s[..|q|][k] == s[k] != q[k];
    }
  }

  /** Parsing is the inverse of rendering: the payload names its event exactly. */
  lemma ParseText(e: Event)
    ensures Parse(Text(e)) == Some(e)
  {
    var s := Text(e);
    var digits := Decimal(Id(e));
    assert s[|Prefix(e)|..] == digits;
    DecimalRoundTrip(Id(e));
    match e
    case OrderCreated(_) =>
    case OrderUpdated(_) =>
      PrefixesClash(s, UpdatedPrefix, CreatedPrefix, 6);
    case OrderDeleted(_) =>
      PrefixesClash(s, DeletedPrefix, CreatedPrefix, 6);
      PrefixesClash(s, DeletedPrefix, UpdatedPrefix, 6);
    case DetailCreated(_) =>
      PrefixesClash(s, DetailPrefix, CreatedPrefix, 6);
      PrefixesClash(s, DetailPrefix, UpdatedPrefix, 6);
      PrefixesClash(s, DetailPrefix, DeletedPrefix, 8);
  }

  /** Distinct events are published as distinct payloads. */
  lemma TextInjective(e1: Event, e2: Event)
    ensures Text(e1) == Text(e2) ==> e1 == e2
  {
    ParseText(e1);
    ParseText(e2);
  }
}
