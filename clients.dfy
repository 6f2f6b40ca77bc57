/**
 * The client registry of the ledger service (src/main.rs): the map from
 * client id to client record that every HTTP handler locks and updates as one
 * step. Each handler is modelled as one atomic method of `Registry`.
 */
module Clients {
  import opened Wrappers

  /** One more than the largest `u32`. */
  const U32Modulus: nat := 0x1_0000_0000

  type U32 = x: nat | x < U32Modulus

  /** A calendar date, kept as its three fields; the registry never inspects it. */
  datatype Date = Date(day: nat, month: nat, year: int)

  /** One account holder. The balance is an exact real, standing for the source's `f64`. */
  datatype Client = Client(
    id: U32,
    name: string,
    birthDate: Date,
    documentNumber: string,
    country: string,
    balance: real)

  /** The body of a registration request. */
  datatype NewClient = NewClient(clientName: string, birthDate: Date, documentNumber: string, country: string)

  /** Why a registry operation was refused; one constructor per error response of the handlers. */
  datatype ClientError =
    | DocumentAlreadyRegistered  // registration: "El número de documento ya está registrado"
    | ClientDoesNotExist         // credit: "El cliente no existe"
    | AmountMustBePositive       // credit: "El monto de la transacción debe ser positivo"
    | ClientNotFound             // balance query: "Cliente no encontrado"

  /** Some stored client holds document number `doc`. */
  ghost predicate DocumentHeld(clients: map<U32, Client>, doc: string) {
    exists k :: k in clients && clients[k].documentNumber == doc
  }

  /** The ids in use are exactly 1, 2, ..., |clients|. */
  ghost predicate IdsAreOneToN(clients: map<U32, Client>) {
    forall k: U32 :: k in clients <==> 1 <= k <= |clients|
  }

  ghost predicate IdsMatchKeys(clients: map<U32, Client>) {
    forall k :: k in clients ==> clients[k].id == k
  }

  ghost predicate DocumentsUnique(clients: map<U32, Client>) {
    forall j, k :: j in clients && k in clients && j != k ==> clients[j].documentNumber != clients[k].documentNumber
  }

  ghost predicate BalancesNonNegative(clients: map<U32, Client>) {
    forall k :: k in clients ==> clients[k].balance >= 0.0
  }

  /** What every handler keeps true of the shared map. */
  ghost predicate WellFormed(clients: map<U32, Client>) {
    && IdsAreOneToN(clients)
    && IdsMatchKeys(clients)
    && DocumentsUnique(clients)
    && BalancesNonNegative(clients)
  }

  /**
   * `after` extends `before`: no client disappears, no identity field of a
   * client changes, and no balance goes down.
   */
  ghost predicate Extends(before: map<U32, Client>, after: map<U32, Client>) {
    forall k :: k in before ==>
      && k in after
      && after[k] == before[k].(balance := after[k].balance)
      && after[k].balance >= before[k].balance
  }

  /** The record a successful registration stores under `id`. */
  function NewRecord(id: U32, request: NewClient): (c: Client)
    ensures c.id == id && c.balance == 0.0 && c.documentNumber == request.documentNumber
  {
    Client(id, request.clientName, request.birthDate, request.documentNumber, request.country, 0.0)
  }

  /** The map a successful registration of `request` leaves behind. */
  function Registered(clients: map<U32, Client>, request: NewClient): map<U32, Client>
    requires |clients| + 1 < U32Modulus
  {
    var id: U32 := |clients| + 1;
    clients[id := NewRecord(id, request)]
  }

  /** The map a successful credit of `amount` to `clientId` leaves behind. */
  function Credited(clients: map<U32, Client>, clientId: U32, amount: real): map<U32, Client>
    requires clientId in clients
  {
    clients[clientId := clients[clientId].(balance := clients[clientId].balance + amount)]
  }

  /** The id |clients| + 1 handed out by a registration is not in use, so the insert overwrites nothing. */
  lemma NextIdIsFresh(clients: map<U32, Client>)
    requires IdsAreOneToN(clients) && |clients| + 1 < U32Modulus
    ensures |clients| + 1 !in clients
  {
    var id: U32 := |clients| + 1;
    assert !(1 <= id <= |clients|);
  }

  lemma RegisterKeepsIdsOneToN(clients: map<U32, Client>, request: NewClient)
    requires IdsAreOneToN(clients) && |clients| + 1 < U32Modulus
    ensures |Registered(clients, request)| == |clients| + 1
    ensures IdsAreOneToN(Registered(clients, request))
  {
    var id: U32 := |clients| + 1;
    var after := Registered(clients, request);
    NextIdIsFresh(clients);
    assert after.Keys == clients.Keys + {id};
    forall k: U32
      ensures k in after <==> 1 <= k <= |after|
    {
      if k != id {
        assert k in after <==> k in clients;
      }
    }
  }

  lemma RegisterKeepsDocumentsUnique(clients: map<U32, Client>, request: NewClient)
    requires DocumentsUnique(clients) && |clients| + 1 < U32Modulus
    requires !DocumentHeld(clients, request.documentNumber)
    ensures DocumentsUnique(Registered(clients, request))
  {
    var id: U32 := |clients| + 1;
    var after := Registered(clients, request);
    forall j, k | j in after && k in after && j != k
      ensures after[j].documentNumber != after[k].documentNumber
    {
      if j == id {
        assert k in clients;
      } else if k == id {
        assert j in clients;
      }
    }
  }

  /**
   * Registration keeps the map well formed: the id |clients| + 1 is not yet
   * in use, so the insert adds a client and overwrites none, and the new
   * document number is held by no other client.
   */
  lemma RegisterKeepsWellFormed(clients: map<U32, Client>, request: NewClient)
    requires WellFormed(clients) && |clients| + 1 < U32Modulus
    requires !DocumentHeld(clients, request.documentNumber)
    ensures |clients| + 1 !in clients
    ensures |Registered(clients, request)| == |clients| + 1
    ensures WellFormed(Registered(clients, request)) && Extends(clients, Registered(clients, request))
  {
    NextIdIsFresh(clients);
    RegisterKeepsIdsOneToN(clients, request);
    RegisterKeepsDocumentsUnique(clients, request);
  }

  /** A non-negative credit keeps the map well formed and only raises that one balance. */
  lemma CreditKeepsWellFormed(clients: map<U32, Client>, clientId: U32, amount: real)
    requires WellFormed(clients) && clientId in clients && amount >= 0.0
    ensures WellFormed(Credited(clients, clientId, amount)) && Extends(clients, Credited(clients, clientId, amount))
  {
    var after := Credited(clients, clientId, amount);
    assert after.Keys == clients.Keys;
    assert IdsAreOneToN(after) by {
      assert |after| == |clients|;
    }
    assert DocumentsUnique(after) by {
      forall j, k | j in after && k in after && j != k
        ensures after[j].documentNumber != after[k].documentNumber
      {
        assert after[j].documentNumber == clients[j].documentNumber;
        assert after[k].documentNumber == clients[k].documentNumber;
      }
    }
  }

  /** The shared client map behind the service's mutex. */
  class Registry {
    var clients: map<U32, Client>

    ghost predicate Valid()
      reads this
    {
      WellFormed(clients)
    }

    /** The empty registry the service starts with. */
    constructor ()
      ensures Valid() && clients == map[]
    {
      clients := map[];
    }

    /** The linear duplicate scan over the stored clients' document numbers. */
    method HasDocument(doc: string) returns (held: bool)
      ensures held <==> DocumentHeld(clients, doc)
    {
      held := false;
      var unseen := clients.Keys;
      while unseen != {} && !held
        invariant unseen <= clients.Keys
        invariant held ==> DocumentHeld(clients, doc)
        invariant !held ==> forall k :: k in clients && k !in unseen ==> clients[k].documentNumber != doc
        decreases unseen
      {
        var k :| k in unseen;
        held := clients[k].documentNumber == doc;
        unseen := unseen - {k};
      }
    }

    /**
     * Registers a client: refused when the document number is already held,
     * otherwise stored under the fresh id |clients| + 1 with balance 0.
     */
    method Register(request: NewClient) returns (r: Result<U32, ClientError>)
      requires Valid()
      requires |clients| + 1 < U32Modulus
      modifies this
      ensures Valid() && Extends(old(clients), clients)
      ensures old(DocumentHeld(clients, request.documentNumber)) ==>
        r == Err(DocumentAlreadyRegistered) && clients == old(clients)
      ensures !old(DocumentHeld(clients, request.documentNumber)) ==>
        && r.Ok?
        && r.value == |old(clients)| + 1
        && r.value !in old(clients)
        && clients == old(clients)[r.value := NewRecord(r.value, request)]
    {
      var held := HasDocument(request.documentNumber);
      if held {
        return Err(DocumentAlreadyRegistered);
      }
      var nextId: U32 := |clients| + 1;
      RegisterKeepsWellFormed(clients, request);
      clients := Registered(clients, request);
      r := Ok(nextId);
    }

    /**
     * Credits `amount` to a client. An unknown id is reported before a
     * negative amount is; only a non-negative amount on a stored client
     * changes anything, and then only that client's balance.
     */
    method Credit(clientId: U32, amount: real) returns (r: Result<real, ClientError>)
      requires Valid()
      modifies this
      ensures Valid() && Extends(old(clients), clients)
      ensures clientId !in old(clients) ==> r == Err(ClientDoesNotExist) && clients == old(clients)
      ensures clientId in old(clients) && amount < 0.0 ==>
        r == Err(AmountMustBePositive) && clients == old(clients)
      ensures clientId in old(clients) && amount >= 0.0 ==>
        && r == Ok(old(clients)[clientId].balance + amount)
        && clients == old(clients)[clientId := old(clients)[clientId].(balance := r.value)]
    {
      if clientId !in clients {
        return Err(ClientDoesNotExist);
      }
      if amount < 0.0 {
        return Err(AmountMustBePositive);
      }
      CreditKeepsWellFormed(clients, clientId, amount);
      clients := Credited(clients, clientId, amount);
      r := Ok(clients[clientId].balance);
    }

    /** The current balance of a client; the query succeeds exactly for the ids 1..|clients|. */
    function BalanceOf(clientId: U32): (r: Result<real, ClientError>)
      reads this
      requires Valid()
      ensures r.Ok? <==> 1 <= clientId <= |clients|
      ensures r.Ok? ==> clientId in clients && r.value == clients[clientId].balance && r.value >= 0.0
      ensures r.Err? ==> r.error == ClientNotFound
    {
      if clientId in clients then Ok(clients[clientId].balance) else Err(ClientNotFound)
    }
  }
}
