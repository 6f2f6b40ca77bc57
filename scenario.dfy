/**
 * A session against a fresh service: register a client, credit it, try a
 * second registration with the same document number, query the balance and
 * export, as the handlers of src/main.rs would answer.
 */
module Scenario {
  import opened Wrappers
  import opened Clients
  import opened Export
  import opened Decimal

  /** The line of a client whose id has one digit. */
  lemma OneDigitLine(id: nat, balanceText: string)
    requires id < 10
    ensures BalanceLine(id, balanceText) == [DigitChar(id), ':', ' '] + balanceText
  {
  }

  /** The year 2024 padded to four digits, one digit at a time. */
  lemma PaddedYear()
    ensures FixedDigits(2024, 4) == "2024"
  {
    assert DigitChar(0) == '0' && DigitChar(2) == '2' && DigitChar(4) == '4';
    assert FixedDigits(2, 1) == FixedDigits(0, 0) + [DigitChar(2)] == "2";
    assert FixedDigits(20, 2) == FixedDigits(2, 1) + [DigitChar(0)] == "20";
    assert FixedDigits(202, 3) == FixedDigits(20, 2) + [DigitChar(2)] == "202";
  }

  /** Day 5 and month 6 padded to two digits. */
  lemma PaddedDayAndMonth()
    ensures FixedDigits(5, 2) == "05" && FixedDigits(6, 2) == "06"
  {
    assert DigitChar(0) == '0' && DigitChar(5) == '5' && DigitChar(6) == '6';
    assert FixedDigits(0, 1) == FixedDigits(0, 0) + [DigitChar(0)] == "0";
  }

  /** The texts of the first export's stamp and name, once their parts are rendered. */
  lemma FirstNameText()
    ensures "05" + "06" + "2024" == "05062024"
    ensures "05062024" + "_" + "0" + ".DAT" == "05062024_0.DAT"
  {
  }

  /** The `%d%m%Y` stamp of 5 June 2024. */
  lemma StampOfFifthJune()
    ensures DateStamp(Date(5, 6, 2024)) == "05062024"
  {
    PaddedDayAndMonth();
    PaddedYear();
    FirstNameText();
    assert DateStamp(Date(5, 6, 2024)) == FixedDigits(5, 2) + FixedDigits(6, 2) + FixedDigits(2024, 4);
  }


  /** The first export of 5 June 2024 is named `05062024_0.DAT`. */
  lemma FirstExportName()
    ensures FileName(Date(5, 6, 2024), 0) == "05062024_0.DAT"
  {
    var day := Date(5, 6, 2024);
    StampOfFifthJune();
    FirstNameText();
    assert NatToString(0) == [DigitChar(0)] == "0";
    assert FileName(day, 0) == DateStamp(day) + "_" + NatToString(0) + ".DAT";
  }

  /** The first export of a registry holding the single client 1 with balance 100. */
  method ExportSingleClient(registry: Registry, counter: FileCounter, render: real -> string)
    returns (exported: Result<string, ExportError>, file: seq<string>)
    requires registry.Valid() && counter.Valid() && counter.value == 0
    requires 1 in registry.clients && registry.clients.Keys == {1} && registry.clients[1].balance == 100.0
    modifies counter
    ensures exported == Ok("05062024_0.DAT")
    ensures file == ["1: " + render(100.0)]
  {
    ghost var order;
    exported, file, order := StoreBalances(registry, counter, Date(5, 6, 2024), render, false, None);
    assert |registry.clients.Keys| == 1;
    assert |order| == 1 && order[0] in registry.clients;
    assert order == [1];
    OneDigitLine(1, render(100.0));
    assert file == [BalanceLine(1, render(100.0))];
    FirstExportName();
  }

  /** A fresh registry after registering one client with document "X1" and crediting it 100. */
  method RegisterThenCredit() returns (registry: Registry, first: Result<U32, ClientError>, credited: Result<real, ClientError>)
    ensures fresh(registry) && registry.Valid()
    ensures registry.clients.Keys == {1}
    ensures registry.clients[1].documentNumber == "X1" && registry.clients[1].balance == 100.0
    ensures first == Ok(1) && credited == Ok(100.0)
  {
    registry := new Registry();
    first := registry.Register(NewClient("A", Date(1, 1, 1990), "X1", "AR"));
    assert registry.clients.Keys == {1} && registry.clients[1].balance == 0.0;
    credited := registry.Credit(1, 100.0);
  }

  /**
   * The session: the client gets id 1, the credit brings its balance to 100,
   * a second registration with the same document is refused, the query sees
   * 100, and the first export writes its single line to `05062024_0.DAT`.
   */
  method RegisterCreditQueryExport(render: real -> string)
    returns (first: Result<U32, ClientError>, credited: Result<real, ClientError>,
             duplicate: Result<U32, ClientError>, queried: Result<real, ClientError>,
             exported: Result<string, ExportError>, file: seq<string>)
    ensures first == Ok(1)
    ensures credited == Ok(100.0)
    ensures duplicate == Err(DocumentAlreadyRegistered)
    ensures queried == Ok(100.0)
    ensures exported == Ok("05062024_0.DAT")
    ensures file == ["1: " + render(100.0)]
  {
    var registry;
    registry, first, credited := RegisterThenCredit();
    var counter := new FileCounter();
    assert DocumentHeld(registry.clients, "X1");
    duplicate := registry.Register(NewClient("B", Date(2, 2, 1992), "X1", "AR"));
    queried := registry.BalanceOf(1);
    exported, file := ExportSingleClient(registry, counter, render);
  }
}
