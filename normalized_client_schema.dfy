/**
 * The other client schema, src/shared/schemas/clienteSchema.js: the same
 * five field rules, except that the CPF first has every non-digit character
 * removed (`value?.replace(/\D/g, '')`) and the `required` and checksum tests
 * see the stripped value.
 */
module NormalizedClientSchema {
  import opened Envelope
  import opened Digits
  import opened ClientSchema

  /** The CPF with every character outside 0-9 removed, the remaining digits in their order. */
  function StripNonDigits(s: string): (r: string)
    ensures AllDigits(r)
    ensures |r| <= |s|
  {
    if s == [] then [] else (if IsDigit(s[0]) then [s[0]] else []) + StripNonDigits(s[1..])
  }

  /** The transform leaves an undefined CPF undefined. */
  function NormalizeCpf(cpf: Option<string>): Option<string>
  {
    match cpf
    case None => None
    case Some(s) => Some(StripNonDigits(s))
  }

  /** The error list of this schema for `x`. */
  function ValidateNormalized(x: ClientInput, v: Validators): (errs: seq<string>)
    ensures errs == [] <==>
      && Truthy(x.name)
      && Truthy(x.email) && v.isEmail(x.email.value)
      && x.cpf.Some? && StripNonDigits(x.cpf.value) != "" && v.validateCpf(StripNonDigits(x.cpf.value))
      && Truthy(x.telephone)
      && Truthy(x.address)
  {
    Validate(x.(cpf := NormalizeCpf(x.cpf)), v)
  }

  /** Stripping distributes over concatenation: no digit moves and none is lost. */
  lemma {:induction false} StripConcat(a: string, b: string)
    ensures StripNonDigits(a + b) == StripNonDigits(a) + StripNonDigits(b)
  {
    if a == [] {
      assert a + b == b;
    } else {
      assert (a + b)[0] == a[0];
      assert (a + b)[1..] == a[1..] + b;
      StripConcat(a[1..], b);
    }
  }

  /** Every digit of the input survives, as often as it occurs; nothing else does. */
  lemma {:induction false} StripKeepsDigits(s: string, c: char)
    ensures IsDigit(c) ==> multiset(StripNonDigits(s))[c] == multiset(s)[c]
    ensures !IsDigit(c) ==> multiset(StripNonDigits(s))[c] == 0
  {
    if s != [] {
      StripKeepsDigits(s[1..], c);
      assert s == [s[0]] + s[1..];
    }
  }

  /** A string is left alone exactly when it is made of digits only. */
  lemma {:induction false} StripFixesExactlyDigitStrings(s: string)
    ensures StripNonDigits(s) == s <==> AllDigits(s)
  {
    if s != [] {
      StripFixesExactlyDigitStrings(s[1..]);
      if !IsDigit(s[0]) {
        assert |StripNonDigits(s)| <= |s[1..]| < |s|;
      }
      if AllDigits(s) {
        assert AllDigits(s[1..]) by {
          forall i | 0 <= i < |s[1..]| ensures IsDigit(s[1..][i]) { assert s[1..][i] == s[i + 1]; }
        }
      }
    }
  }

  /** The transform is idempotent. */
  lemma StripIdempotent(s: string)
    ensures StripNonDigits(StripNonDigits(s)) == StripNonDigits(s)
  {
    StripFixesExactlyDigitStrings(StripNonDigits(s));
  }

  /** A CPF without any digit becomes empty, so the schema reports it as missing. */
  lemma NoDigitsMeansMissing(x: ClientInput, v: Validators)
    requires x.cpf.Some? && forall i :: 0 <= i < |x.cpf.value| ==> !IsDigit(x.cpf.value[i])
    ensures StripNonDigits(x.cpf.value) == ""
    ensures CpfRequired in ValidateNormalized(x, v)
  {
    var s := x.cpf.value;
    var r := StripNonDigits(s);
    if r != "" {
      StripKeepsDigits(s, r[0]);
      assert false;
    }
    ValidateMessages(x.(cpf := NormalizeCpf(x.cpf)), v);
  }

  /**
   * The verdict depends on the CPF's digits only: two requests that agree on
   * every other field and whose CPFs carry the same digits get the same
   * error list.
   */
  lemma VerdictDependsOnDigitsOnly(x: ClientInput, y: ClientInput, v: Validators)
    requires x.name == y.name && x.email == y.email && x.telephone == y.telephone && x.address == y.address
    requires x.cpf.Some? <==> y.cpf.Some?
    requires x.cpf.Some? ==> StripNonDigits(x.cpf.value) == StripNonDigits(y.cpf.value)
    ensures ValidateNormalized(x, v) == ValidateNormalized(y, v)
  {
    assert x.(cpf := NormalizeCpf(x.cpf)) == y.(cpf := NormalizeCpf(y.cpf));
  }

  /** Stripping a group of digits followed by one separator leaves the group. */
  lemma StripGroup(group: string, separator: string)
    requires AllDigits(group) && |separator| == 1 && !IsDigit(separator[0])
    ensures StripNonDigits(group + separator) == group
  {
    StripFixesExactlyDigitStrings(group);
    StripConcat(group, separator);
    assert StripNonDigits(separator[1..]) == "";
  }

  /** Stripping the punctuation of a formatted CPF leaves its eleven digits. */
  lemma StripFormattedCpf(formatted: string)
    requires formatted == "111.444.777-35"
    ensures StripNonDigits(formatted) == "11144477735"
  {
    var a, b, c, d := "111", "444", "777", "35";
    var p, q, r := a + ".", b + ".", c + "-";
    assert StripNonDigits(p + q) == a + b by {
      StripGroup(a, ".");
      StripGroup(b, ".");
      StripConcat(p, q);
    }
    assert StripNonDigits(r + d) == c + d by {
      StripGroup(c, "-");
      StripFixesExactlyDigitStrings(d);
      StripConcat(r, d);
    }
    StripConcat(p + q, r + d);
    assert (p + q) + (r + d) == formatted;
    assert (a + b) + (c + d) == "11144477735";
  }

  /** The formatted and the bare spelling of the same CPF get the same verdict. */
  lemma FormattedCpfSameVerdict(x: ClientInput, v: Validators)
    requires x.cpf == Some("111.444.777-35")
    ensures ValidateNormalized(x, v) == ValidateNormalized(x.(cpf := Some("11144477735")), v)
  {
    StripFormattedCpf(x.cpf.value);
    StripFixesExactlyDigitStrings("11144477735");
    VerdictDependsOnDigitsOnly(x, x.(cpf := Some("11144477735")), v);
  }

  /**
   * The name, e-mail, telephone and address rules are those of the first
   * schema: each of their messages is reported by one schema exactly when it
   * is reported by the other. The CPF messages differ only through the
   * transform.
   */
  lemma SameRulesAsRawSchema(x: ClientInput, v: Validators)
    ensures forall f :: f != CpfMissing && f != CpfRejected ==>
      (Message(f) in ValidateNormalized(x, v) <==> Message(f) in Validate(x, v))
    ensures CpfRequired in ValidateNormalized(x, v) <==> !Truthy(NormalizeCpf(x.cpf))
    ensures CpfInvalid in ValidateNormalized(x, v) <==> x.cpf.Some? && !v.validateCpf(StripNonDigits(x.cpf.value))
  {
    ValidateMessages(x.(cpf := NormalizeCpf(x.cpf)), v);
  }
}
