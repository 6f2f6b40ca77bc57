/**
 * The balance export of the ledger service (src/main.rs): the process-wide
 * file counter, the `DDMMYYYY_<counter>.DAT` file name, and the
 * `<id>: <balance>` lines written for every stored client.
 */
module Export {
  import opened Wrappers
  import opened Decimal
  import opened Clients

  /** A date chrono's `%d%m%Y` renders as exactly eight digits. */
  predicate Printable(d: Date) {
    1 <= d.day <= 31 && 1 <= d.month <= 12 && 0 <= d.year <= 9999
  }

  /**
   * The `%d%m%Y` text of a date: eight digits whose first two read back as
   * the day, the next two as the month and the last four as the year.
   */
  function DateStamp(d: Date): (s: string)
    requires Printable(d)
    ensures |s| == 8 && AllDigits(s)
    ensures ParseDigits(s[..2]) == d.day && ParseDigits(s[2..4]) == d.month && ParseDigits(s[4..]) == d.year
  {
    var s := FixedDigits(d.day, 2) + FixedDigits(d.month, 2) + FixedDigits(d.year as nat, 4);
    assert s[..2] == FixedDigits(d.day, 2);
    assert s[2..4] == FixedDigits(d.month, 2);
    assert s[4..] == FixedDigits(d.year as nat, 4);
    s
  }

  /**
   * The export file name for `counter` on `today`, `DDMMYYYY_<counter>.DAT`:
   * it reads back as exactly that date and counter.
   */
  function FileName(today: Date, counter: nat): (name: string)
    requires Printable(today)
    ensures ParseFileName(name) == Some(FileNameParts(today, counter))
  {
    StampedNameParses(today, counter);
    DateStamp(today) + "_" + NatToString(counter) + ".DAT"
  }

  datatype FileNameParts = FileNameParts(date: Date, counter: nat)

  /** Reads a file name back into its date and counter; `None` for anything not of the export shape. */
  function ParseFileName(name: string): Option<FileNameParts> {
    if |name| < 14 || name[8] != '_' || name[|name| - 4..] != ".DAT" then None
    else
      var stamp := name[..8];
      var digits := name[9..|name| - 4];
      if !AllDigits(stamp) || !AllDigits(digits) then None
      else Some(FileNameParts(
        Date(ParseDigits(stamp[..2]), ParseDigits(stamp[2..4]), ParseDigits(stamp[4..])),
        ParseDigits(digits)))
  }

  lemma StampedNameParses(today: Date, counter: nat)
    requires Printable(today)
    ensures ParseFileName(DateStamp(today) + "_" + NatToString(counter) + ".DAT")
         == Some(FileNameParts(today, counter))
  {
    var stamp := DateStamp(today);
    var digits := NatToString(counter);
    var name := stamp + "_" + digits + ".DAT";
    assert name[..8] == stamp;
    assert name[9..|name| - 4] == digits;
    assert name[|name| - 4..] == ".DAT";
  }

  /** Two exports with different counter values never share a file name, whatever their dates. */
  lemma FileNamesDistinct(day1: Date, counter1: nat, day2: Date, counter2: nat)
    requires Printable(day1) && Printable(day2)
    requires counter1 != counter2
    ensures FileName(day1, counter1) != FileName(day2, counter2)
  {
  }

  /** The line written for one client, `<id>: <balance>`: it reads back as that id and balance text. */
  function BalanceLine(id: nat, balanceText: string): (line: string)
    ensures ParseBalanceLine(line) == Some(LineEntry(id, balanceText))
  {
    NumberedLineParses(id, balanceText);
    NatToString(id) + ": " + balanceText
  }

  datatype LineEntry = LineEntry(id: nat, balanceText: string)

  /** Reads a balance line back into its id and balance text. */
  function ParseBalanceLine(line: string): Option<LineEntry> {
    var k := DigitPrefixLength(line);
    if k == 0 || |line| < k + 2 || line[k..k + 2] != ": " then None
    else Some(LineEntry(ParseDigits(line[..k]), line[k + 2..]))
  }

  lemma NumberedLineParses(id: nat, balanceText: string)
    ensures ParseBalanceLine(NatToString(id) + ": " + balanceText) == Some(LineEntry(id, balanceText))
  {
    var digits := NatToString(id);
    var line := digits + ": " + balanceText;
    assert line == digits + (": " + balanceText);
    DigitPrefixOfConcat(digits, ": " + balanceText);
    assert line[..|digits|] == digits;
    assert line[|digits|..|digits| + 2] == ": ";
    assert line[|digits| + 2..] == balanceText;
  }

  /** `order` lists stored ids, none twice. */
  ghost predicate ListsStoredIds(order: seq<U32>, clients: map<U32, Client>) {
    && (forall i, j :: 0 <= i < j < |order| ==> order[i] != order[j])
    && (forall i :: 0 <= i < |order| ==> order[i] in clients)
  }

  /** `order` lists every stored id exactly once: one possible iteration order of the map. */
  ghost predicate EnumeratesIds(order: seq<U32>, clients: map<U32, Client>) {
    && ListsStoredIds(order, clients)
    && (forall k :: k in clients ==> k in order)
    && |order| == |clients|
  }

  /** The lines written for the clients of `order`, in that order. */
  function BalanceLines(clients: map<U32, Client>, order: seq<U32>, render: real -> string): (lines: seq<string>)
    requires forall i :: 0 <= i < |order| ==> order[i] in clients
    ensures |lines| == |order|
    ensures forall i :: 0 <= i < |order| ==> lines[i] == BalanceLine(order[i], render(clients[order[i]].balance))
  {
    if order == [] then []
    else
      var front := order[..|order| - 1];
      var last := order[|order| - 1];
      assert forall i :: 0 <= i < |front| ==> front[i] == order[i];
      BalanceLines(clients, front, render) + [BalanceLine(last, render(clients[last].balance))]
  }

  /**
   * A complete export holds one line per stored client and nothing else:
   * every line reads back as a stored id with that client's balance, every
   * stored client has such a line, and no line is repeated.
   */
  lemma SnapshotHasOneLinePerClient(clients: map<U32, Client>, order: seq<U32>, render: real -> string)
    requires EnumeratesIds(order, clients)
    ensures var lines := BalanceLines(clients, order, render);
      && |lines| == |clients|
      && (forall i :: 0 <= i < |lines| ==>
            ParseBalanceLine(lines[i]) == Some(LineEntry(order[i], render(clients[order[i]].balance))))
      && (forall k :: k in clients ==>
            (exists i :: 0 <= i < |lines| && ParseBalanceLine(lines[i]) == Some(LineEntry(k, render(clients[k].balance)))))
      && (forall i, j :: 0 <= i < j < |lines| ==> lines[i] != lines[j])
  {
    var lines := BalanceLines(clients, order, render);
    forall k | k in clients
      ensures exists i :: 0 <= i < |lines| && ParseBalanceLine(lines[i]) == Some(LineEntry(k, render(clients[k].balance)))
    {
      var i :| 0 <= i < |order| && order[i] == k;
      assert ParseBalanceLine(lines[i]) == Some(LineEntry(k, render(clients[k].balance)));
    }
    forall i, j | 0 <= i < j < |lines|
      ensures lines[i] != lines[j]
    {
      assert ParseBalanceLine(lines[i]) != ParseBalanceLine(lines[j]);
    }
  }

  /**
   * Midway through the write loop: `order` holds the ids already written,
   * `unvisited` those still to come, and together they are the stored ids.
   */
  ghost predicate Visiting(clients: map<U32, Client>, order: seq<U32>, unvisited: set<U32>) {
    && unvisited <= clients.Keys
    && ListsStoredIds(order, clients)
    && (forall k :: k in clients ==> (k in order <==> k !in unvisited))
    && |order| + |unvisited| == |clients|
  }

  lemma VisitingStarts(clients: map<U32, Client>)
    ensures Visiting(clients, [], clients.Keys)
  {
  }

  lemma VisitingSteps(clients: map<U32, Client>, order: seq<U32>, unvisited: set<U32>, id: U32)
    requires Visiting(clients, order, unvisited) && id in unvisited
    ensures Visiting(clients, order + [id], unvisited - {id})
  {
    assert |unvisited - {id}| == |unvisited| - 1;
  }

  lemma VisitingEnds(clients: map<U32, Client>, order: seq<U32>)
    requires Visiting(clients, order, {})
    ensures EnumeratesIds(order, clients)
  {
  }

  lemma BalanceLinesGrow(clients: map<U32, Client>, order: seq<U32>, id: U32, render: real -> string)
    requires forall i :: 0 <= i < |order| ==> order[i] in clients
    requires id in clients
    ensures BalanceLines(clients, order + [id], render)
         == BalanceLines(clients, order, render) + [BalanceLine(id, render(clients[id].balance))]
  {
    assert (order + [id])[..|order|] == order;
  }

  /**
   * The write loop of the export: walks the map in some order and writes
   * one line per client, stopping at the write numbered `writeFailsAt`
   * (counting from 0) if that write fails. `file` is what reached the file.
   */
  method WriteBalances(clients: map<U32, Client>, render: real -> string, writeFailsAt: Option<nat>)
    returns (file: seq<string>, complete: bool, ghost order: seq<U32>)
    ensures ListsStoredIds(order, clients) && file == BalanceLines(clients, order, render)
    ensures complete <==> (writeFailsAt.None? || writeFailsAt.value >= |clients|)
    ensures complete ==> EnumeratesIds(order, clients)
    ensures !complete ==> |order| == writeFailsAt.value
  {
    file, complete, order := [], true, [];
    var unvisited := clients.Keys;
    VisitingStarts(clients);
    while unvisited != {}
      invariant Visiting(clients, order, unvisited)
      invariant file == BalanceLines(clients, order, render) && |file| == |order|
      invariant writeFailsAt.None? || writeFailsAt.value >= |order|
      decreases unvisited
    {
      var id :| id in unvisited;
      if writeFailsAt.Some? && writeFailsAt.value == |file| {
        complete := false;
        return;
      }
      VisitingSteps(clients, order, unvisited, id);
      BalanceLinesGrow(clients, order, id, render);
      file := file + [BalanceLine(id, render(clients[id].balance))];
      order := order + [id];
      unvisited := unvisited - {id};
    }
    VisitingEnds(clients, order);
  }

  /** The process-wide `AtomicU32` export counter, starting at 0. */
  class FileCounter {
    var value: U32
    /** Every value handed out so far, oldest first. */
    ghost var issued: seq<U32>

    ghost predicate Valid()
      reads this
    {
      && value == |issued| % U32Modulus
      && forall i :: 0 <= i < |issued| ==> issued[i] == i % U32Modulus
    }

    constructor ()
      ensures Valid() && value == 0 && issued == []
    {
      value := 0;
      issued := [];
    }

    /** `fetch_add(1)`: hands out the current value and advances, wrapping at 2^32. */
    method FetchAdd() returns (previous: U32)
      requires Valid()
      modifies this
      ensures Valid()
      ensures previous == old(value) && issued == old(issued) + [previous]
      ensures value == (previous + 1) % U32Modulus
    {
      previous := value;
      value := (value + 1) % U32Modulus;
      issued := issued + [previous];
    }
  }

  /** Fewer than 2^32 fetches never hand out the same value twice. */
  lemma IssuedValuesDistinct(issued: seq<U32>)
    requires forall i :: 0 <= i < |issued| ==> issued[i] == i % U32Modulus
    requires |issued| <= U32Modulus
    ensures forall i, j :: 0 <= i < j < |issued| ==> issued[i] != issued[j]
  {
  }

  /**
   * The 2^32-th fetch hands out 0 again: the wrap-around of the `u32` counter.
   * An export made then on the same date as the first one gets the first
   * one's file name, so `File::create` truncates that earlier file.
   */
  lemma IssuedValuesWrap(issued: seq<U32>)
    requires forall i :: 0 <= i < |issued| ==> issued[i] == i % U32Modulus
    requires |issued| > U32Modulus
    ensures issued[U32Modulus] == issued[0] == 0
    ensures forall d :: Printable(d) ==> FileName(d, issued[U32Modulus]) == FileName(d, issued[0])
  {
  }

  /** Within the first 2^32 exports of a process no two exports are given the same file name. */
  lemma ExportNamesDistinct(issued: seq<U32>, i: nat, j: nat, day1: Date, day2: Date)
    requires forall n :: 0 <= n < |issued| ==> issued[n] == n % U32Modulus
    requires |issued| <= U32Modulus
    requires i < j < |issued|
    requires Printable(day1) && Printable(day2)
    ensures FileName(day1, issued[i]) != FileName(day2, issued[j])
  {
    IssuedValuesDistinct(issued);
    FileNamesDistinct(day1, issued[i], day2, issued[j]);
  }

  datatype ExportError =
    | CreateFailed  // "Error al crear el archivo"
    | WriteFailed   // "Error al escribir en el archivo"

  /**
   * The export handler: consumes one counter value, names the file after it
   * and `today`, then creates the file (which may fail) and writes the
   * balance lines (a write may fail). On success the result is the file name.
   */
  method StoreBalances(registry: Registry, counter: FileCounter, today: Date, render: real -> string,
                       createFails: bool, writeFailsAt: Option<nat>)
    returns (r: Result<string, ExportError>, file: seq<string>, ghost order: seq<U32>)
    requires registry.Valid() && counter.Valid() && Printable(today)
    modifies counter
    ensures counter.Valid()
    ensures counter.issued == old(counter.issued) + [old(counter.value)]
    ensures counter.value == (old(counter.value) + 1) % U32Modulus
    ensures createFails ==> r == Err(CreateFailed) && file == []
    ensures !createFails ==>
      && ListsStoredIds(order, registry.clients)
      && file == BalanceLines(registry.clients, order, render)
    ensures !createFails && (writeFailsAt.None? || writeFailsAt.value >= |registry.clients|) ==>
      && r == Ok(FileName(today, old(counter.value)))
      && EnumeratesIds(order, registry.clients)
    ensures !createFails && writeFailsAt.Some? && writeFailsAt.value < |registry.clients| ==>
      && r == Err(WriteFailed)
      && |order| == writeFailsAt.value
  {
    var fileCounter := counter.FetchAdd();
    var fileName := FileName(today, fileCounter);
    if createFails {
      return Err(CreateFailed), [], [];
    }
    var complete;
    file, complete, order := WriteBalances(registry.clients, render, writeFailsAt);
    if !complete {
      return Err(WriteFailed), file, order;
    }
    r := Ok(fileName);
  }

  /**
   * Two exports in a row never report the same file name, on any dates and
   * whatever else fails: consecutive counter values differ, even across the
   * wrap-around at 2^32.
   */
  method ExportTwice(registry: Registry, counter: FileCounter, day1: Date, day2: Date, render: real -> string,
                     createFails1: bool, writeFailsAt1: Option<nat>, createFails2: bool, writeFailsAt2: Option<nat>)
    returns (r1: Result<string, ExportError>, r2: Result<string, ExportError>)
    requires registry.Valid() && counter.Valid() && Printable(day1) && Printable(day2)
    modifies counter
    ensures counter.Valid()
    ensures counter.issued == old(counter.issued) + [old(counter.value), (old(counter.value) + 1) % U32Modulus]
    ensures r1.Ok? && r2.Ok? ==> r1.value != r2.value
  {
    ghost var first := counter.value;
    var file1, file2;
    ghost var order1, order2;
    r1, file1, order1 := StoreBalances(registry, counter, day1, render, createFails1, writeFailsAt1);
    ghost var second := counter.value;
    r2, file2, order2 := StoreBalances(registry, counter, day2, render, createFails2, writeFailsAt2);
    FileNamesDistinct(day1, first, day2, second);
  }
}
