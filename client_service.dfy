/**
 * The client service of src/service/ClientService.js over an in-memory
 * `client` table: rows in storage order, so that "the first row a query
 * matches" is well defined, plus the number of rental rows that refer to
 * each client.
 */
module ClientService {
  import opened Envelope
  import opened Store
  import opened ClientSchema

  type ClientId = nat
  type Timestamp = int

  /** A stored client row; `id`, `createdAt` and `updatedAt` are set by the store. */
  datatype Client = Client(
    id: ClientId,
    name: string,
    email: string,
    cpf: string,
    telephone: string,
    address: string,
    createdAt: Timestamp,
    updatedAt: Timestamp)

  /** A row of the client list: every field except the identifier. */
  datatype ClientEntry = ClientEntry(
    name: string,
    email: string,
    cpf: string,
    telephone: string,
    address: string,
    createdAt: Timestamp,
    updatedAt: Timestamp)

  const ClientNotExisting := "Cliente não existente."
  const ClientFound := "Cliente encontrado."
  const NoClients := "Nenhum cliente encontrado."
  const ClientsListed := "Listagem de clientes bem-sucedida."
  const ValidationError := "Erro de validação."
  const CpfCheckFailed := "CPF inválido."
  const DuplicateEmailOrCpf := "E-mail ou CPF já cadastrado."
  const ClientCreated := "Cliente criado com sucesso."
  const NotFoundForUpdate := "Cliente não encontrado para atualização."
  const EmailOrCpfInUse := "E-mail ou CPF já está em uso por outro cliente."
  const ClientUpdated := "Cliente atualizado com sucesso."
  const ClientNotFound := "Cliente não encontrado."
  const HasRentalHistory := "Cliente possui histórico de aluguéis e não pode ser removido."
  const ClientRemoved := "Cliente removido com sucesso."

  /** `findUnique({ where: { cpf } })`: the row holding exactly this CPF. */
  function IndexOfCpf(table: seq<Client>, cpf: string): (r: Option<nat>)
    ensures r.None? <==> forall i :: 0 <= i < |table| ==> table[i].cpf != cpf
    ensures r.Some? ==> r.value < |table| && table[r.value].cpf == cpf
    ensures r.Some? ==> forall j :: 0 <= j < r.value ==> table[j].cpf != cpf
  {
    FirstIndex(table, (c: Client) => c.cpf == cpf)
  }

  /** Some row already holds this e-mail or this CPF. */
  ghost predicate Taken(table: seq<Client>, email: string, cpf: string)
  {
    exists i :: 0 <= i < |table| && (table[i].email == email || table[i].cpf == cpf)
  }

  /** `findFirst` with `OR: [{ email }, { cpf }]`, the duplicate query of the create path. */
  function FindDuplicate(table: seq<Client>, email: string, cpf: string): (r: Option<nat>)
    ensures r.None? <==> !Taken(table, email, cpf)
    ensures r.Some? ==> r.value < |table| && (table[r.value].email == email || table[r.value].cpf == cpf)
  {
    FirstIndex(table, (c: Client) => c.email == email || c.cpf == cpf)
  }

  ghost predicate EmailsDistinct(table: seq<Client>)
  {
    forall i, j :: 0 <= i < j < |table| ==> table[i].email != table[j].email
  }

  ghost predicate CpfsDistinct(table: seq<Client>)
  {
    forall i, j :: 0 <= i < j < |table| ==> table[i].cpf != table[j].cpf
  }

  /** The uniqueness invariant: no two clients share an e-mail or a CPF. */
  ghost predicate Unique(table: seq<Client>)
  {
    EmailsDistinct(table) && CpfsDistinct(table)
  }

  /** Appending a client whose e-mail and CPF are both unused keeps the table unique. */
  lemma InsertKeepsUnique(table: seq<Client>, c: Client)
    requires !Taken(table, c.email, c.cpf)
    ensures Unique(table) ==> Unique(table + [c])
  {
    var t := table + [c];
    forall i | 0 <= i < |table| ensures t[i].email != c.email && t[i].cpf != c.cpf {
      assert t[i] == table[i];
    }
  }

  /** No two rows share an identifier (the primary key). */
  ghost predicate IdsDistinct(table: seq<Client>)
  {
    forall i, j :: 0 <= i < j < |table| ==> table[i].id != table[j].id
  }

  /** Removing a row keeps the identifiers distinct. */
  lemma RemoveKeepsIdsDistinct(table: seq<Client>, k: nat)
    requires k < |table|
    ensures IdsDistinct(table) ==> IdsDistinct(RemoveAt(table, k))
  {
    var t := RemoveAt(table, k);
    if IdsDistinct(table) {
      forall i, j | 0 <= i < j < |t| ensures t[i].id != t[j].id {
        var i', j' := if i < k then i else i + 1, if j < k then j else j + 1;
        assert t[i] == table[i'] && t[j] == table[j'];
      }
    }
  }

  /** Removing a row keeps the table unique. */
  lemma RemoveKeepsUnique(table: seq<Client>, k: nat)
    requires k < |table|
    ensures Unique(table) ==> Unique(RemoveAt(table, k))
  {
    var t := RemoveAt(table, k);
    if Unique(table) {
      forall i, j | 0 <= i < j < |t| ensures t[i].email != t[j].email && t[i].cpf != t[j].cpf {
        var i', j' := if i < k then i else i + 1, if j < k then j else j + 1;
        assert t[i] == table[i'] && t[j] == table[j'];
      }
    }
  }

  /** Once a row is removed from a table of distinct CPFs, no row holds its CPF. */
  lemma RemovedCpfIsGone(table: seq<Client>, k: nat)
    requires k < |table| && CpfsDistinct(table)
    ensures IndexOfCpf(RemoveAt(table, k), table[k].cpf).None?
  {
    var t := RemoveAt(table, k);
    forall i | 0 <= i < |t| ensures t[i].cpf != table[k].cpf {
      if i < k { assert t[i] == table[i]; } else { assert t[i] == table[i + 1]; }
    }
  }

  /** The list projection of a row. */
  function Entry(c: Client): ClientEntry
  {
    ClientEntry(c.name, c.email, c.cpf, c.telephone, c.address, c.createdAt, c.updatedAt)
  }

  /** `clients.map(...)`: one entry per row, in storage order. */
  function Entries(table: seq<Client>): (r: seq<ClientEntry>)
    ensures |r| == |table|
    ensures forall i :: 0 <= i < |table| ==> r[i] == Entry(table[i])
  {
    if table == [] then [] else [Entry(table[0])] + Entries(table[1..])
  }

  /** A row the collision query of the edit path matches: only truthy fields of `data` take part. */
  predicate MatchesEdit(data: ClientInput, c: Client)
  {
    || (Truthy(data.email) && c.email == data.email.value)
    || (Truthy(data.cpf) && c.cpf == data.cpf.value)
  }

  /**
   * The collision check of the edit path. It runs only when `data.email` or
   * `data.cpf` is truthy, and it reports a collision exactly when the FIRST
   * row matching either value belongs to a CPF other than the edited one;
   * rows after that first match are never looked at.
   */
  function EditCollision(table: seq<Client>, cpf: string, data: ClientInput): (b: bool)
    ensures b <==>
      && (Truthy(data.email) || Truthy(data.cpf))
      && exists m ::
        && 0 <= m < |table|
        && MatchesEdit(data, table[m])
        && (forall j :: 0 <= j < m ==> !MatchesEdit(data, table[j]))
        && table[m].cpf != cpf
  {
    if !(Truthy(data.email) || Truthy(data.cpf)) then false
    else match FirstIndex(table, (c: Client) => MatchesEdit(data, c))
      case None => false
      case Some(m) => table[m].cpf != cpf
  }

  /**
   * The partial update `update({ where: { cpf }, data })`: every field
   * present in `data` is overwritten, including by an empty string; absent
   * fields keep their values; the store refreshes `updatedAt`.
   */
  function Patch(c: Client, data: ClientInput, now: Timestamp): (r: Client)
    ensures r.id == c.id && r.createdAt == c.createdAt && r.updatedAt == now
    ensures r.name == (if data.name.Some? then data.name.value else c.name)
    ensures r.email == (if data.email.Some? then data.email.value else c.email)
    ensures r.cpf == (if data.cpf.Some? then data.cpf.value else c.cpf)
    ensures r.telephone == (if data.telephone.Some? then data.telephone.value else c.telephone)
    ensures r.address == (if data.address.Some? then data.address.value else c.address)
    ensures data == ClientInput(None, None, None, None, None) ==> r == c.(updatedAt := now)
  {
    Client(
      c.id,
      if data.name.Some? then data.name.value else c.name,
      if data.email.Some? then data.email.value else c.email,
      if data.cpf.Some? then data.cpf.value else c.cpf,
      if data.telephone.Some? then data.telephone.value else c.telephone,
      if data.address.Some? then data.address.value else c.address,
      c.createdAt,
      now)
  }

  /** Applying the same partial update twice gives what applying it once gives. */
  lemma PatchIdempotent(c: Client, data: ClientInput, now: Timestamp)
    ensures Patch(Patch(c, data, now), data, now) == Patch(c, data, now)
  {
  }

  /** An update that carries only an address changes the address and the update time, nothing else. */
  lemma PatchAddressOnly(c: Client, address: string, now: Timestamp)
    ensures var p := Patch(c, ClientInput(None, None, None, None, Some(address)), now);
      p == c.(address := address, updatedAt := now)
  {
  }

  /**
   * Because only the first match is inspected, an edit can hand the edited
   * client another client's CPF: with `a` before `b`, sending `a`'s own
   * e-mail and `b`'s CPF makes `a` the first match, so no collision is
   * reported, and the update leaves two rows with `b`'s CPF.
   */
  lemma FirstMatchOnlyAdmitsDuplicateCpf(a: Client, b: Client, now: Timestamp)
    requires a.email != b.email && a.cpf != b.cpf && a.email != "" && b.cpf != ""
    ensures var data := ClientInput(None, Some(a.email), Some(b.cpf), None, None);
      && Unique([a, b])
      && !EditCollision([a, b], a.cpf, data)
      && !CpfsDistinct([a, b][0 := Patch(a, data, now)])
  {
    var data := ClientInput(None, Some(a.email), Some(b.cpf), None, None);
    var t := [a, b];
    assert MatchesEdit(data, t[0]);
    assert !EditCollision(t, a.cpf, data) by {
      forall m | 0 <= m < |t| && MatchesEdit(data, t[m]) && (forall j :: 0 <= j < m ==> !MatchesEdit(data, t[j]))
        ensures t[m].cpf == a.cpf
      {
        assert m == 0;
      }
    }
    var t' := t[0 := Patch(a, data, now)];
    assert t'[0].cpf == t'[1].cpf;
  }

  class ClientService {
    var clients: seq<Client>
    var rentals: map<ClientId, nat>
    var nextId: ClientId
    const checks: Validators

    /**
     * Every stored identifier, and every client with rentals, was handed out
     * before `nextId`, and no two rows share an identifier.
     */
    ghost predicate Valid()
      reads this
    {
      && (forall i :: 0 <= i < |clients| ==> clients[i].id < nextId)
      && IdsDistinct(clients)
      && (forall id :: id in rentals ==> id < nextId)
    }

    /** A service over an existing table; `checks` are the CPF and e-mail validators it uses. */
    constructor (clients: seq<Client>, rentals: map<ClientId, nat>, nextId: ClientId, checks: Validators)
      requires forall i :: 0 <= i < |clients| ==> clients[i].id < nextId
      requires forall id :: id in rentals ==> id < nextId
      requires IdsDistinct(clients)
      ensures Valid()
      ensures this.clients == clients && this.rentals == rentals && this.nextId == nextId && this.checks == checks
    {
      this.clients := clients;
      this.rentals := rentals;
      this.nextId := nextId;
      this.checks := checks;
    }

    /** How many rental rows refer to client `id`. */
    function RentalCount(id: ClientId): nat
      reads this
    {
      if id in rentals then rentals[id] else 0
    }

    /**
     * `getClientByCPF`: an error without data when no row holds exactly
     * `cpf`; otherwise the stored row (identifier, fields and timestamps).
     */
    function GetClientByCpf(cpf: string): (r: Response<Client>)
      reads this
      ensures r.Error? <==> forall i :: 0 <= i < |clients| ==> clients[i].cpf != cpf
      ensures r.Error? ==> r == Error(ClientNotExisting, [])
      ensures r.Success? ==> r.message == ClientFound && r.data in clients && r.data.cpf == cpf
    {
      match IndexOfCpf(clients, cpf)
      case None => Error(ClientNotExisting, [])
      case Some(k) => Success(ClientFound, clients[k])
    }

    /** With distinct CPFs, looking a stored client up by its CPF returns that very row. */
    lemma GetFindsEveryClient(k: nat)
      requires CpfsDistinct(clients) && k < |clients|
      ensures GetClientByCpf(clients[k].cpf) == Success(ClientFound, clients[k])
    {
    }

    /**
     * `getAllClients`: an error, not an empty list, when the table is
     * empty; otherwise one entry per row, in storage order, without the
     * identifier.
     */
    function GetAllClients(): (r: Response<seq<ClientEntry>>)
      reads this
      ensures r.Error? <==> |clients| == 0
      ensures r.Error? ==> r == Error(NoClients, [])
      ensures r.Success? ==> r.message == ClientsListed && |r.data| == |clients|
      ensures r.Success? ==> forall i :: 0 <= i < |clients| ==> r.data[i] == Entry(clients[i])
    {
      if |clients| == 0 then Error(NoClients, []) else Success(ClientsListed, Entries(clients))
    }

    /** The list entry of a client is its single lookup minus the identifier. */
    lemma ListAgreesWithLookup(k: nat)
      requires CpfsDistinct(clients) && k < |clients|
      ensures GetAllClients().Success? && GetClientByCpf(clients[k].cpf).Success?
      ensures GetAllClients().data[k] == Entry(GetClientByCpf(clients[k].cpf).data)
    {
      GetFindsEveryClient(k);
    }

    /** The CPF re-check after a passing schema cannot fail: the schema already ran the same validator. */
    lemma CreateCpfRecheckUnreachable(data: ClientInput)
      requires Validate(data, checks) == []
      ensures data.cpf.Some? && checks.validateCpf(data.cpf.value)
    {
    }

    /**
     * `createClient`: validate; refuse a duplicate e-mail or CPF; insert.
     * Every error leaves the table as it was. A success appends exactly one
     * row holding the input's fields, with a fresh identifier, so a table
     * with distinct e-mails and CPFs keeps them distinct.
     */
    method CreateClient(data: ClientInput, now: Timestamp) returns (r: Response<Client>)
      requires Valid()
      modifies this
      ensures Valid() && rentals == old(rentals)
      ensures r.Error? ==> clients == old(clients) && nextId == old(nextId)
      ensures Validate(data, checks) != [] ==> r == Error(ValidationError, Validate(data, checks))
      ensures Validate(data, checks) == [] && Taken(old(clients), data.email.value, data.cpf.value) ==>
        r == Error(DuplicateEmailOrCpf, [])
      ensures r.Success? <==> Validate(data, checks) == [] && !Taken(old(clients), data.email.value, data.cpf.value)
      ensures r.Success? ==>
        && r.message == ClientCreated
        && r.data == Client(old(nextId), data.name.value, data.email.value, data.cpf.value,
                            data.telephone.value, data.address.value, now, now)
        && clients == old(clients) + [r.data]
        && nextId == old(nextId) + 1
      ensures r.Success? ==> forall i :: 0 <= i < |old(clients)| ==> old(clients)[i].id != r.data.id
      ensures r.Success? ==> RentalCount(r.data.id) == 0
      ensures Unique(old(clients)) ==> Unique(clients)
    {
      var errs := Validate(data, checks);
      if errs != [] {
        return Error(ValidationError, errs);
      }
      // createClient's `validateCPF(data.cpf)` re-check (ClientService.js:97) always passes here.
      CreateCpfRecheckUnreachable(data);
      var existing := FindDuplicate(clients, data.email.value, data.cpf.value);
      if existing.Some? {
        return Error(DuplicateEmailOrCpf, []);
      }
      var created := Client(nextId, data.name.value, data.email.value, data.cpf.value,
                            data.telephone.value, data.address.value, now, now);
      InsertKeepsUnique(clients, created);
      clients := clients + [created];
      nextId := nextId + 1;
      r := Success(ClientCreated, created);
    }

    /**
     * `editClient`: find the row by `cpf`; reject a truthy `data.cpf` the
     * validator refuses; run the first-match collision check; then apply the
     * partial update to that one row. Every error leaves the table as it was.
     */
    method EditClient(cpf: string, data: ClientInput, now: Timestamp) returns (r: Response<Client>)
      requires Valid()
      modifies this
      ensures Valid() && rentals == old(rentals) && nextId == old(nextId)
      ensures r.Error? ==> clients == old(clients)
      ensures IndexOfCpf(old(clients), cpf).None? ==> r == Error(NotFoundForUpdate, [])
      ensures IndexOfCpf(old(clients), cpf).Some? && Truthy(data.cpf) && !checks.validateCpf(data.cpf.value) ==>
        r == Error(CpfCheckFailed, [])
      ensures IndexOfCpf(old(clients), cpf).Some? && !(Truthy(data.cpf) && !checks.validateCpf(data.cpf.value))
              && EditCollision(old(clients), cpf, data) ==>
        r == Error(EmailOrCpfInUse, [])
      ensures r.Success? <==>
        && IndexOfCpf(old(clients), cpf).Some?
        && !(Truthy(data.cpf) && !checks.validateCpf(data.cpf.value))
        && !EditCollision(old(clients), cpf, data)
      ensures r.Success? ==>
        var k := IndexOfCpf(old(clients), cpf).value;
        && r == Success(ClientUpdated, Patch(old(clients)[k], data, now))
        && clients == old(clients)[k := r.data]
    {
      var found := IndexOfCpf(clients, cpf);
      if found.None? {
        return Error(NotFoundForUpdate, []);
      }
      if Truthy(data.cpf) && !checks.validateCpf(data.cpf.value) {
        return Error(CpfCheckFailed, []);
      }
      if EditCollision(clients, cpf, data) {
        return Error(EmailOrCpfInUse, []);
      }
      var k := found.value;
      var updated := Patch(clients[k], data, now);
      clients := clients[k := updated];
      r := Success(ClientUpdated, updated);
    }

    /**
     * `deleteClient`: an error when no row holds `cpf`; an error, with the
     * table unchanged, when the client has any rental; otherwise exactly
     * that row is removed and the others keep their order.
     */
    method DeleteClient(cpf: string) returns (r: Response<()>)
      requires Valid()
      modifies this
      ensures Valid() && rentals == old(rentals) && nextId == old(nextId)
      ensures r.Error? ==> clients == old(clients)
      ensures IndexOfCpf(old(clients), cpf).None? ==> r == Error(ClientNotFound, [])
      ensures IndexOfCpf(old(clients), cpf).Some? && RentalCount(old(clients)[IndexOfCpf(old(clients), cpf).value].id) > 0 ==>
        r == Error(HasRentalHistory, [])
      ensures r.Success? <==>
        IndexOfCpf(old(clients), cpf).Some? && RentalCount(old(clients)[IndexOfCpf(old(clients), cpf).value].id) == 0
      ensures r.Success? ==>
        && r == Success(ClientRemoved, ())
        && clients == RemoveAt(old(clients), IndexOfCpf(old(clients), cpf).value)
        && |clients| == |old(clients)| - 1
      ensures r.Success? && CpfsDistinct(old(clients)) ==> IndexOfCpf(clients, cpf).None?
      ensures Unique(old(clients)) ==> Unique(clients)
    {
      var found := IndexOfCpf(clients, cpf);
      if found.None? {
        return Error(ClientNotFound, []);
      }
      var k := found.value;
      if RentalCount(clients[k].id) > 0 {
        return Error(HasRentalHistory, []);
      }
      RemoveKeepsUnique(clients, k);
      RemoveKeepsIdsDistinct(clients, k);
      if CpfsDistinct(clients) {
        RemovedCpfIsGone(clients, k);
      }
      clients := RemoveAt(clients, k);
      r := Success(ClientRemoved, ());
    }
  }
}
