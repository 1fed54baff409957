/**
 Item collection: removing a collected item from the group, and the score
 label "Items: n/3" shown in the corner.
 */
module Scoring {
  import opened World

  /** The number of items a level holds; the exit only opens at this score. */
  const TotalItems: nat := 3

  function IdsOf(items: seq<Item>): set<ItemId>
  {
    set it | it in items :: it.id
  }

  /** No two items share an identity. */
  predicate UniqueIds(items: seq<Item>)
  {
    forall i, j :: 0 <= i < j < |items| ==> items[i].id != items[j].id
  }

  /** The group after item `id` is destroyed: every other item stays. */
  function RemoveItem(items: seq<Item>, id: ItemId): (r: seq<Item>)
    ensures forall it :: it in r <==> it in items && it.id != id
    ensures id !in IdsOf(r)
    ensures id !in IdsOf(items) ==> r == items
    ensures UniqueIds(items) ==> UniqueIds(r)
    ensures UniqueIds(items) && id in IdsOf(items) ==> |r| == |items| - 1
    decreases |items|
  {
    if |items| == 0 then []
    else if items[0].id == id then RemoveItem(items[1..], id)
    else [items[0]] + RemoveItem(items[1..], id)
  }

  /** The decimal digit character for `d`. */
  function DigitChar(d: nat): (ch: char)
    requires d < 10
    ensures '0' <= ch <= '9'
    ensures ch as int - '0' as int == d
  {
    ('0' as int + d) as char
  }

  predicate AllDigits(s: string)
  {
    forall i :: 0 <= i < |s| ==> '0' <= s[i] <= '9'
  }

  /** The number a string of decimal digits denotes. */
  function DecimalValue(s: string): nat
    requires AllDigits(s)
  {
    if |s| == 0 then 0
    else DecimalValue(s[..|s| - 1]) * 10 + (s[|s| - 1] as int - '0' as int)
  }

  /** How a template string prints a non-negative integer: decimal digits,
      no sign, no leading zero. */
  function Decimal(n: nat): (s: string)
    ensures 1 <= |s|
    ensures AllDigits(s)
    ensures |s| > 1 ==> s[0] != '0'
    decreases n
  {
    if n < 10 then [DigitChar(n)]
    else Decimal(n / 10) + [DigitChar(n % 10)]
  }

  /** Reading the printed number back gives the number. */
  lemma {:induction false} DecimalRoundTrip(n: nat)
    ensures DecimalValue(Decimal(n)) == n
    decreases n
  {
    if n >= 10 {
      DecimalRoundTrip(n / 10);
      var s := Decimal(n);
      assert s[..|s| - 1] == Decimal(n / 10);
    }
  }

  /** The score label: "Items: " then the count, a slash and the total. */
  function ScoreText(collected: nat): string
  {
    "Items: " + Decimal(collected) + "/" + Decimal(TotalItems)
  }

  /** Different scores are displayed differently. */
  lemma ScoreTextInjective(a: nat, b: nat)
    requires ScoreText(a) == ScoreText(b)
    ensures a == b
  {
    var p := "Items: ";
    var q := "/" + Decimal(TotalItems);
    var ta, tb := ScoreText(a), ScoreText(b);
    assert ta == p + Decimal(a) + q;
    assert tb == p + Decimal(b) + q;
    assert |Decimal(a)| == |Decimal(b)|;
    assert Decimal(a) == ta[|p|..|ta| - |q|];
    assert Decimal(b) == tb[|p|..|tb| - |q|];
    DecimalRoundTrip(a);
    DecimalRoundTrip(b);
  }

  /** The label at the start and after each of the three pickups. */
  lemma ScoreTextValues()
    ensures ScoreText(0) == "Items: 0/3"
    ensures ScoreText(1) == "Items: 1/3"
    ensures ScoreText(2) == "Items: 2/3"
    ensures ScoreText(3) == "Items: 3/3"
  {
  }
}
