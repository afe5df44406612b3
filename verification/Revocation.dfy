/** Finding the certificate to revoke: an indexed lookup by serial, then a scan of the rows that have none. */
module Revocation {
  import opened Wrappers
  import opened Numerals

  datatype Row = Row(id: string, order: string, pem: string, serial: Option<string>)

  /** Parsing the leaf of a chain; None when it cannot be parsed. */
  type Parser = string -> Option<int>

  function LeafSerialHex(parse: Parser, pem: string): Option<string> {
    match parse(pem) case None => None case Some(serial) => Some(Hex(serial))
  }

  datatype Event =
    | Stored(id: string, order: string, pem: string)   // store_cert
    | Legacy(id: string, order: string, pem: string)   // a row older than the serial column

  function After(parse: Parser, run: seq<Event>): seq<Row> {
    if run == [] then [] else
    After(parse, run[..|run| - 1]) +
      match run[|run| - 1]
      case Stored(id, order, pem) => [Row(id, order, pem, LeafSerialHex(parse, pem))]
      case Legacy(id, order, pem) => [Row(id, order, pem, None)]
  }

  /** A stored serial is missing or the hexadecimal of the row's own leaf. */
  ghost predicate Faithful(parse: Parser, rows: seq<Row>) {
    forall i | 0 <= i < |rows| :: rows[i].serial.Some? ==> rows[i].serial == LeafSerialHex(parse, rows[i].pem)
  }

  lemma {:induction false} RunFaithful(parse: Parser, run: seq<Event>)
    ensures Faithful(parse, After(parse, run))
  {
    if run != [] {
      RunFaithful(parse, run[..|run| - 1]);
    }
  }

  predicate Owned(row: Row, owner: map<string, string>, account: string) {
    row.order in owner && owner[row.order] == account
  }

  /** What a full scan that parses every chain of the account would look for. */
  ghost predicate IsTarget(parse: Parser, row: Row, owner: map<string, string>, account: string, serial: int) {
    Owned(row, owner, account) && parse(row.pem) == Some(serial)
  }

  /** revoke_cert's search; `owner` maps each order to its account. */
  method FindCertificate(parse: Parser, rows: seq<Row>, owner: map<string, string>, account: string, serial: int)
    returns (found: Option<Row>)
    requires Faithful(parse, rows)
    ensures found.Some? <==> exists i | 0 <= i < |rows| :: IsTarget(parse, rows[i], owner, account, serial)
    ensures found.Some? ==> found.value in rows && found.value.order in owner && owner[found.value.order] == account
                            && parse(found.value.pem) == Some(serial)
    ensures forall i | 0 <= i < |rows| ::
              rows[i].order in owner && owner[rows[i].order] == account && parse(rows[i].pem) == Some(serial) ==>
                found.Some?
  {
    found := FirstIndexed(rows, owner, account, Hex(serial));
    if found.Some? {
      var i :| 0 <= i < |rows| && rows[i] == found.value;
      IndexedIsTarget(parse, rows, i, serial);
      assert IsTarget(parse, rows[i], owner, account, serial);
      return;
    }
    for i := 0 to |rows|
      invariant forall j | 0 <= j < i && rows[j].serial.None? :: !IsTarget(parse, rows[j], owner, account, serial)
    {
      if Owned(rows[i], owner, account) && rows[i].serial.None? {
        // an unparseable chain is skipped
        if parse(rows[i].pem) == Some(serial) {
          assert IsTarget(parse, rows[i], owner, account, serial);
          return Some(rows[i]);
        }
      }
    }
  }

  /** The indexed query: the first row of the account with the given serial text. */
  method FirstIndexed(rows: seq<Row>, owner: map<string, string>, account: string, serial: string)
    returns (found: Option<Row>)
    ensures found.Some? ==>
              found.value in rows && Owned(found.value, owner, account) && found.value.serial == Some(serial)
    ensures found.None? ==> forall i | 0 <= i < |rows| && Owned(rows[i], owner, account) ::
            rows[i].serial != Some(serial)
  {
    for i := 0 to |rows|
      invariant forall j | 0 <= j < i && Owned(rows[j], owner, account) :: rows[j].serial != Some(serial)
    {
      if Owned(rows[i], owner, account) && rows[i].serial == Some(serial) {
        return Some(rows[i]);
      }
    }
    return None;
  }

  /** The text in the index identifies the leaf's serial, because its format is injective. */
  lemma IndexedIsTarget(parse: Parser, rows: seq<Row>, i: nat, serial: int)
    requires Faithful(parse, rows) && i < |rows| && rows[i].serial.Some?
    ensures rows[i].serial == Some(Hex(serial)) <==> parse(rows[i].pem) == Some(serial)
  {
    assert rows[i].serial == LeafSerialHex(parse, rows[i].pem);
    if parse(rows[i].pem).Some? {
      HexInjective(parse(rows[i].pem).value, serial);
    }
  }

  /** After every run of stores, on a database of any age, the two-stage search is exactly a full scan. */
  lemma TwoStageIsFullScan(parse: Parser, run: seq<Event>, owner: map<string, string>, account: string, serial: int,
      i: nat)
    requires i < |After(parse, run)|
    ensures var row := After(parse, run)[i];
            IsTarget(parse, row, owner, account, serial)
            <==> Owned(row, owner, account)
                 && (row.serial == Some(Hex(serial)) || (row.serial.None? && parse(row.pem) == Some(serial)))
  {
    RunFaithful(parse, run);
    if After(parse, run)[i].serial.Some? {
      IndexedIsTarget(parse, After(parse, run), i, serial);
    }
  }

  class CertTable {
    const parse: Parser
    var rows: seq<Row>

    ghost predicate Valid()
      reads this
    {
      Faithful(parse, rows)
    }

    constructor (parse: Parser, legacy: seq<(string, string, string)>)
      ensures Valid() && this.parse == parse
      ensures |rows| == |legacy| && forall i | 0 <= i < |rows| ::
              rows[i] == Row(legacy[i].0, legacy[i].1, legacy[i].2, None)
    {
      this.parse := parse;
      this.rows := seq(|legacy|, i requires 0 <= i < |legacy| => Row(legacy[i].0, legacy[i].1, legacy[i].2, None));
    }

    method StoreCert(id: string, order: string, pem: string)
      requires Valid()
      modifies this`rows
      ensures Valid()
      ensures rows == old(rows) + [Row(id, order, pem, match parse(pem) case None => None case Some(n) => Some(Hex(n)))]
    {
      var serial := LeafSerialHex(parse, pem);
      rows := rows + [Row(id, order, pem, serial)];
    }
  }
}
