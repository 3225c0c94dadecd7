/**
 * The client validation schema of src/shared/cliente.schema.js: five field
 * rules, evaluated collect-all into the list of failure messages.
 *
 * Field semantics follow the schema library: an undefined field fails only
 * its `required` rule (its other tests are not run); a defined string runs
 * every test of its field, where `required` rejects the empty string and the
 * e-mail format test lets the empty string through. Messages come out in the
 * order the fields are declared, and within a field in the order its tests
 * are declared.
 */
module ClientSchema {
  import opened Envelope

  /** The request body: each field may be missing. */
  datatype ClientInput = ClientInput(
    name: Option<string>,
    email: Option<string>,
    cpf: Option<string>,
    telephone: Option<string>,
    address: Option<string>)

  /**
   * The two checks the schema takes from elsewhere: the CPF checksum
   * validator and the library's e-mail syntax test. Both stay uninterpreted.
   */
  datatype Validators = Validators(validateCpf: string -> bool, isEmail: string -> bool)

  const NameRequired := "Nome é obrigatório"
  const EmailInvalid := "Email inválido"
  const EmailRequired := "Email é obrigatório"
  const CpfRequired := "CPF é obrigatório"
  const CpfInvalid := "CPF inválido"
  const TelephoneRequired := "Telefone é obrigatório"
  const AddressRequired := "Endereço é obrigatório"

  /** One entry of the rule table: a field's test that can fail. */
  datatype Failure =
    | NameMissing
    | EmailMalformed
    | EmailMissing
    | CpfMissing
    | CpfRejected
    | TelephoneMissing
    | AddressMissing

  /** The message the schema attaches to each test. */
  function Message(f: Failure): string
  {
    match f
    case NameMissing => NameRequired
    case EmailMalformed => EmailInvalid
    case EmailMissing => EmailRequired
    case CpfMissing => CpfRequired
    case CpfRejected => CpfInvalid
    case TelephoneMissing => TelephoneRequired
    case AddressMissing => AddressRequired
  }

  /** Distinct tests carry distinct messages, so the message list identifies the failures. */
  lemma MessageInjective(f: Failure, g: Failure)
    requires Message(f) == Message(g)
    ensures f == g
  {
  }

  /** The position of a test in the rule table: fields in declaration order, then tests within a field. */
  function Position(f: Failure): nat
  {
    match f
    case NameMissing => 0
    case EmailMalformed => 1
    case EmailMissing => 2
    case CpfMissing => 3
    case CpfRejected => 4
    case TelephoneMissing => 5
    case AddressMissing => 6
  }

  /**
   * A field that is defined and not empty: what a string `required` rule
   * accepts, and what JavaScript treats as truthy.
   */
  predicate Truthy(v: Option<string>)
  {
    v.Some? && v.value != ""
  }

  /** When each test of the schema fails on `x`. */
  predicate Fails(x: ClientInput, v: Validators, f: Failure)
  {
    match f
    case NameMissing => !Truthy(x.name)
    case EmailMalformed => Truthy(x.email) && !v.isEmail(x.email.value)
    case EmailMissing => !Truthy(x.email)
    case CpfMissing => !Truthy(x.cpf)
    case CpfRejected => x.cpf.Some? && !v.validateCpf(x.cpf.value)
    case TelephoneMissing => !Truthy(x.telephone)
    case AddressMissing => !Truthy(x.address)
  }

  function Required(v: Option<string>, f: Failure): seq<Failure>
  {
    if Truthy(v) then [] else [f]
  }

  function NameRule(v: Option<string>): seq<Failure>
  {
    Required(v, NameMissing)
  }

  /** Tests in declaration order: the format test, then `required`. */
  function EmailRule(v: Option<string>, isEmail: string -> bool): seq<Failure>
  {
    match v
    case None => [EmailMissing]
    case Some(s) =>
      (if s == "" || isEmail(s) then [] else [EmailMalformed]) + (if s == "" then [EmailMissing] else [])
  }

  /** Tests in declaration order: `required`, then the checksum test. */
  function CpfRule(v: Option<string>, validateCpf: string -> bool): seq<Failure>
  {
    match v
    case None => [CpfMissing]
    case Some(s) =>
      (if s == "" then [CpfMissing] else []) + (if validateCpf(s) then [] else [CpfRejected])
  }

  function TelephoneRule(v: Option<string>): seq<Failure>
  {
    Required(v, TelephoneMissing)
  }

  function AddressRule(v: Option<string>): seq<Failure>
  {
    Required(v, AddressMissing)
  }

  /** Failures listed in strictly increasing table order, all of positions in [lo, hi). */
  ghost predicate OrderedWithin(fs: seq<Failure>, lo: nat, hi: nat)
  {
    && (forall i :: 0 <= i < |fs| ==> lo <= Position(fs[i]) < hi)
    && (forall i, j :: 0 <= i < j < |fs| ==> Position(fs[i]) < Position(fs[j]))
  }

  lemma OrderedConcat(a: seq<Failure>, b: seq<Failure>, lo: nat, mid: nat, hi: nat)
    requires lo <= mid <= hi
    requires OrderedWithin(a, lo, mid) && OrderedWithin(b, mid, hi)
    ensures OrderedWithin(a + b, lo, hi)
  {
    var ab := a + b;
    forall i, j | 0 <= i < j < |ab| ensures Position(ab[i]) < Position(ab[j]) {
      if j < |a| {
        assert ab[i] == a[i] && ab[j] == a[j];
      } else if i < |a| {
        assert ab[i] == a[i] && ab[j] == b[j - |a|];
      } else {
        assert ab[i] == b[i - |a|] && ab[j] == b[j - |a|];
      }
    }
  }

  /** Each field's rule lists exactly the tests of that field which fail. */
  lemma RuleMembers(x: ClientInput, v: Validators, f: Failure)
    ensures f in NameRule(x.name) <==> f == NameMissing && Fails(x, v, f)
    ensures f in EmailRule(x.email, v.isEmail) <==> (f == EmailMalformed || f == EmailMissing) && Fails(x, v, f)
    ensures f in CpfRule(x.cpf, v.validateCpf) <==> (f == CpfMissing || f == CpfRejected) && Fails(x, v, f)
    ensures f in TelephoneRule(x.telephone) <==> f == TelephoneMissing && Fails(x, v, f)
    ensures f in AddressRule(x.address) <==> f == AddressMissing && Fails(x, v, f)
  {
  }

  /**
   * The failures of `x`, collected from every field (`abortEarly: false`):
   * a test is listed exactly when it fails, whatever the other fields hold,
   * and the list follows the rule table without repetition.
   */
  function Failures(x: ClientInput, v: Validators): (fs: seq<Failure>)
    ensures forall f :: f in fs <==> Fails(x, v, f)
    ensures forall i, j :: 0 <= i < j < |fs| ==> Position(fs[i]) < Position(fs[j])
  {
    var name := NameRule(x.name);
    var email := EmailRule(x.email, v.isEmail);
    var cpf := CpfRule(x.cpf, v.validateCpf);
    var telephone := TelephoneRule(x.telephone);
    var address := AddressRule(x.address);
    OrderedConcat(name, email, 0, 1, 3);
    OrderedConcat(name + email, cpf, 0, 3, 5);
    OrderedConcat(name + email + cpf, telephone, 0, 5, 6);
    OrderedConcat(name + email + cpf + telephone, address, 0, 6, 7);
    var fs := name + email + cpf + telephone + address;
    assert forall f :: f in fs <==> Fails(x, v, f) by {
      forall f ensures f in fs <==> Fails(x, v, f) {
        RuleMembers(x, v, f);
      }
    }
    fs
  }

  function Render(fs: seq<Failure>): (errs: seq<string>)
    ensures |errs| == |fs|
    ensures forall i :: 0 <= i < |fs| ==> errs[i] == Message(fs[i])
  {
    if fs == [] then [] else [Message(fs[0])] + Render(fs[1..])
  }

  /** A message is rendered exactly when its failure is listed, and distinct failures stay distinct. */
  lemma RenderedMessages(fs: seq<Failure>)
    requires forall i, j :: 0 <= i < j < |fs| ==> fs[i] != fs[j]
    ensures forall f :: Message(f) in Render(fs) <==> f in fs
    ensures forall i, j :: 0 <= i < j < |Render(fs)| ==> Render(fs)[i] != Render(fs)[j]
  {
    var errs := Render(fs);
    forall f ensures Message(f) in errs <==> f in fs {
      if Message(f) in errs {
        var i :| 0 <= i < |errs| && errs[i] == Message(f);
        MessageInjective(f, fs[i]);
      }
      if f in fs {
        var i :| 0 <= i < |fs| && fs[i] == f;
        assert errs[i] == Message(f);
      }
    }
    forall i, j | 0 <= i < j < |errs| ensures errs[i] != errs[j] {
      if errs[i] == errs[j] { MessageInjective(fs[i], fs[j]); }
    }
  }

  /** No test fails exactly when every field is filled and both checks pass. */
  lemma NoFailureIff(x: ClientInput, v: Validators)
    ensures (forall f :: !Fails(x, v, f)) <==>
      && Truthy(x.name)
      && Truthy(x.email) && v.isEmail(x.email.value)
      && Truthy(x.cpf) && v.validateCpf(x.cpf.value)
      && Truthy(x.telephone)
      && Truthy(x.address)
  {
    if forall f :: !Fails(x, v, f) {
      assert !Fails(x, v, NameMissing) && !Fails(x, v, EmailMissing) && !Fails(x, v, EmailMalformed);
      assert !Fails(x, v, CpfMissing) && !Fails(x, v, CpfRejected);
      assert !Fails(x, v, TelephoneMissing) && !Fails(x, v, AddressMissing);
    }
  }

  /**
   * The list of messages `validate` rejects `x` with. It is empty exactly
   * when every field is filled, the e-mail has valid syntax and the CPF
   * passes the validator; each message is present exactly when its own test
   * fails, so errors of different fields are reported together; no message
   * is repeated.
   */
  function Validate(x: ClientInput, v: Validators): (errs: seq<string>)
    ensures errs == [] <==>
      && Truthy(x.name)
      && Truthy(x.email) && v.isEmail(x.email.value)
      && Truthy(x.cpf) && v.validateCpf(x.cpf.value)
      && Truthy(x.telephone)
      && Truthy(x.address)
    ensures forall f :: Message(f) in errs <==> Fails(x, v, f)
    ensures forall i :: 0 <= i < |errs| ==> exists f :: Message(f) == errs[i]
    ensures forall i, j :: 0 <= i < j < |errs| ==> errs[i] != errs[j]
  {
    var fs := Failures(x, v);
    RenderedMessages(fs);
    NoFailureIff(x, v);
    assert fs != [] ==> fs[0] in fs;
    Render(fs)
  }

  /** The messages of each missing or malformed field, as the schema words them. */
  lemma ValidateMessages(x: ClientInput, v: Validators)
    ensures NameRequired in Validate(x, v) <==> !Truthy(x.name)
    ensures EmailRequired in Validate(x, v) <==> !Truthy(x.email)
    ensures EmailInvalid in Validate(x, v) <==> Truthy(x.email) && !v.isEmail(x.email.value)
    ensures CpfRequired in Validate(x, v) <==> !Truthy(x.cpf)
    ensures CpfInvalid in Validate(x, v) <==> x.cpf.Some? && !v.validateCpf(x.cpf.value)
    ensures TelephoneRequired in Validate(x, v) <==> !Truthy(x.telephone)
    ensures AddressRequired in Validate(x, v) <==> !Truthy(x.address)
  {
    assert Message(NameMissing) == NameRequired && Message(EmailMissing) == EmailRequired;
    assert Message(EmailMalformed) == EmailInvalid && Message(CpfMissing) == CpfRequired;
    assert Message(CpfRejected) == CpfInvalid && Message(TelephoneMissing) == TelephoneRequired;
    assert Message(AddressMissing) == AddressRequired;
  }

  /**
   * Collect-all in one example: a request whose name and telephone are empty,
   * whose address is missing or empty, and whose e-mail and CPF are non-empty
   * but wrong gets one message per field, in field order.
   */
  lemma EveryFieldReported(x: ClientInput, v: Validators)
    requires x.name == Some("") && x.telephone == Some("") && !Truthy(x.address)
    requires x.email.Some? && x.email.value != "" && !v.isEmail(x.email.value)
    requires x.cpf.Some? && x.cpf.value != "" && !v.validateCpf(x.cpf.value)
    ensures Validate(x, v) == [NameRequired, EmailInvalid, CpfInvalid, TelephoneRequired, AddressRequired]
  {
    var fs := [NameMissing, EmailMalformed, CpfRejected, TelephoneMissing, AddressMissing];
    assert Failures(x, v) == fs by {
      assert NameRule(x.name) == [NameMissing];
      assert EmailRule(x.email, v.isEmail) == [EmailMalformed];
      assert CpfRule(x.cpf, v.validateCpf) == [CpfRejected];
      assert TelephoneRule(x.telephone) == [TelephoneMissing];
      assert AddressRule(x.address) == [AddressMissing];
    }
    var errs := Render(fs);
    assert errs == [NameRequired, EmailInvalid, CpfInvalid, TelephoneRequired, AddressRequired] by {
      assert errs[0] == Message(fs[0]) && errs[1] == Message(fs[1]) && errs[2] == Message(fs[2]);
      assert errs[3] == Message(fs[3]) && errs[4] == Message(fs[4]);
    }
  }
}
