/** The text of a trade id identifies client order id, venue and ordinal, so the
  unique index on the text is the unique index on the `TradeId` value. */
module TradeIdText {
  import opened Types

  /** The decimal rendering of a count. */
  function Decimal(n: nat): string {
    if n < 10 then [Digit(n)] else Decimal(n / 10) + [Digit(n % 10)]
  }

  function Digit(d: nat): char
    requires d < 10
  {
    '0' + d as char
  }

  lemma {:induction false} DecimalInjective(a: nat, b: nat)
    requires Decimal(a) == Decimal(b)
    ensures a == b
  {
    DecimalNonempty(a / 10);
    DecimalNonempty(b / 10);
    var s := Decimal(a);
    assert s[|s| - 1] == Digit(a % 10) && s[|s| - 1] == Digit(b % 10);
    if a >= 10 && b >= 10 {
      assert Decimal(a)[..|s| - 1] == Decimal(a / 10);
      assert Decimal(b)[..|s| - 1] == Decimal(b / 10);
      DecimalInjective(a / 10, b / 10);
    }
  }

  lemma DecimalNonempty(n: nat)
    ensures |Decimal(n)| >= 1
  {
  }

  function Tag(venue: ExchangeMode): string {
    if venue.Paper? then ":paper:" else ":reconcile:"
  }

  /** format!("{}:paper:{}", client, n) and format!("{}:reconcile:{}", client, n). */
  function Text(client: string, venue: ExchangeMode, ordinal: nat): string {
    client + Tag(venue) + Decimal(ordinal)
  }

  /** Client order ids are UUIDs without hyphens, all of one length. */
  lemma TextIdentifies(client1: string, venue1: ExchangeMode, ordinal1: nat,
                       client2: string, venue2: ExchangeMode, ordinal2: nat)
    requires |client1| == |client2|
    ensures Text(client1, venue1, ordinal1) == Text(client2, venue2, ordinal2)
      <==> client1 == client2 && venue1 == venue2 && ordinal1 == ordinal2
  {
    var s, t := Text(client1, venue1, ordinal1), Text(client2, venue2, ordinal2);
    if s == t {
      assert client1 == s[..|client1|] && client2 == t[..|client2|];
      assert s[|client1| + 1] == Tag(venue1)[1] && t[|client1| + 1] == Tag(venue2)[1];
      var skip := |client1| + |Tag(venue1)|;
      assert s[skip..] == Decimal(ordinal1) && t[skip..] == Decimal(ordinal2);
      DecimalInjective(ordinal1, ordinal2);
    }
  }
}
