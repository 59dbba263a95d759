/**
 Which names are sensitive, told by families instead of by cases, for every
 spelling of a name; and what is put in the place of a value at one.
 */
module NameFamilies {
  import opened Basics
  import opened Json
  import opened Text
  import opened Placeholders
  import opened SensitiveNames
  import opened JsonRedaction
  import opened JsonGuarantees
  import R = RequestTarget

  // ---- spelling ---------------------------------------------------------------------

  predicate IsLetter(c: char) {
    'A' <= c <= 'Z' || 'a' <= c <= 'z' || '0' <= c <= '9'
  }

  /** `d` is the small letter for a capital, and otherwise the same. */
  predicate SameLetter(c: char, d: char) {
    if 'A' <= c <= 'Z' then d as int == c as int + 32 else d == c
  }

  /** `key` is `name` in any mixture of cases, with any other characters put in. */
  predicate Spells(key: string, name: string) {
    if key == "" then name == ""
    else if IsLetter(key[0]) then name != "" && SameLetter(key[0], name[0]) && Spells(key[1..], name[1..])
    else Spells(key[1..], name)
  }

  lemma LettersOrDigits(c: char)
    ensures IsLetter(c) <==> IsAlphanumeric(c)
    ensures forall d :: SameLetter(c, d) <==> d == Lower(c)
  {
  }

  /** Every key spells exactly one name. */
  lemma {:induction false} SpellsIff(key: string, name: string)
    ensures Spells(key, name) <==> NormalizeKey(key) == name
  {
    hide IsLetter, SameLetter, IsAlphanumeric, Lower;
    if key != "" {
      LettersOrDigits(key[0]);
      if IsLetter(key[0]) {
        if name != "" {
          SpellsIff(key[1..], name[1..]);
          HeadAndTail(name);
          assert ([Lower(key[0])] + NormalizeKey(key[1..]))[1..] == NormalizeKey(key[1..]);
        }
      } else {
        SpellsIff(key[1..], name);
        assert [] + NormalizeKey(key[1..]) == NormalizeKey(key[1..]);
      }
    }
  }

  // ---- families ---------------------------------------------------------------------------

  /** Names that are sensitive as they stand, or as the end, or as a part of one. */
  datatype Family = Family(names: seq<string>, endings: seq<string>, parts: seq<string>)

  function FamilyOf(kind: Kind): Family {
    match kind
    case Secret =>
      Family(["clientsecret", "passcode", "passwd", "password", "pin", "pwd", "secret"], ["password", "secret"], [])
    case Token => Family(["apiaccesskey", "apikey", "auth", "authorization", "proxyauthorization"], [], ["token"])
    case Cookie => Family([], [], ["cookie"])
    case Email => Family([], ["email"], [])
    case Pii => Family(["phone", "phonenumber", "userlogin", "username"], ["username"], [])
    case Id =>
      Family(["androidid", "device", "deviceid", "serial", "session", "sessionid", "transactionid"],
             ["deviceid", "sessionid", "transactionid"], [])
    case Ip => Family(["clientip", "ip", "ipaddress", "remoteip"], [], [])
    case Configured => Family([], [], [])
  }

  predicate Belongs(name: string, kind: Kind) {
    var f := FamilyOf(kind);
    || name in f.names
    || (exists i :: 0 <= i < |f.endings| && EndsWith(name, f.endings[i]))
    || (exists i :: 0 <= i < |f.parts| && Contains(name, f.parts[i]))
  }

  /** A name in several families is of the first one's kind. */
  function Rank(kind: Kind): nat {
    match kind
    case Secret => 0
    case Token => 1
    case Cookie => 2
    case Email => 3
    case Pii => 4
    case Id => 5
    case Ip => 6
    case Configured => 7
  }

  predicate FirstFamily(name: string, kind: Kind) {
    Belongs(name, kind) && forall k: Kind :: Rank(k) < Rank(kind) ==> !Belongs(name, k)
  }

  lemma SecretFamily(n: string)
    ensures Belongs(n, Secret)
      <==> n in ["password", "passwd", "pwd", "passcode", "pin", "secret", "clientsecret"]
           || EndsWith(n, "password") || EndsWith(n, "secret")
  {
    hide EndsWith;
    var f := FamilyOf(Secret);
    assert f.endings[0] == "password" && f.endings[1] == "secret";
  }

  lemma TokenAndCookieFamilies(n: string)
    ensures Belongs(n, Token)
      <==> n in ["authorization", "proxyauthorization", "auth"] || Contains(n, "token") || n in ["apikey", "apiaccesskey"]
    ensures Belongs(n, Cookie) <==> Contains(n, "cookie")
  {
    hide Contains;
    assert FamilyOf(Token).parts[0] == "token" && FamilyOf(Cookie).parts[0] == "cookie";
  }

  lemma PersonFamilies(n: string)
    ensures Belongs(n, Email) <==> EndsWith(n, "email")
    ensures Belongs(n, Pii) <==> n in ["username", "userlogin", "phone", "phonenumber"] || EndsWith(n, "username")
  {
    hide EndsWith;
    assert FamilyOf(Email).endings[0] == "email" && FamilyOf(Pii).endings[0] == "username";
  }

  lemma IdFamilies(n: string)
    ensures Belongs(n, Id)
      <==> n in ["session", "sessionid", "device", "deviceid", "androidid", "transactionid", "serial"]
           || EndsWith(n, "sessionid") || EndsWith(n, "deviceid") || EndsWith(n, "transactionid")
    ensures Belongs(n, Ip) <==> n in ["ip", "ipaddress", "clientip", "remoteip"]
    ensures !Belongs(n, Configured)
  {
    hide EndsWith;
    var f := FamilyOf(Id);
    assert f.endings[0] == "deviceid" && f.endings[1] == "sessionid" && f.endings[2] == "transactionid";
  }

  /** Built-in names are those of the families, with the kind of the first. */
  lemma BuiltinKindIff(name: string, kind: Kind)
    ensures BuiltinKind(name) == Some(kind) <==> FirstFamily(name, kind)
    ensures BuiltinKind(name).None? <==> forall k: Kind :: !Belongs(name, k)
  {
    hide Belongs, BuiltinKind;
    KindByFamily(name);
    NoConfiguredFamily(name);
    if BuiltinKind(name).None? {
      forall k: Kind ensures !Belongs(name, k) {
        assert k.Secret? || k.Token? || k.Cookie? || k.Email? || k.Pii? || k.Id? || k.Ip? || k.Configured?;
      }
    } else {
      assert Belongs(name, BuiltinKind(name).value);
      forall k: Kind | Rank(k) < Rank(BuiltinKind(name).value) ensures !Belongs(name, k) {
        assert k.Secret? || k.Token? || k.Cookie? || k.Email? || k.Pii? || k.Id? || k.Ip? || k.Configured?;
      }
    }
  }

  lemma NoConfiguredFamily(name: string)
    ensures !Belongs(name, Configured)
  {
  }

  lemma KindByFamily(name: string)
    ensures BuiltinKind(name) ==
      if Belongs(name, Secret) then Some(Secret) else if Belongs(name, Token) then Some(Token)
      else if Belongs(name, Cookie) then Some(Cookie) else if Belongs(name, Email) then Some(Email)
      else if Belongs(name, Pii) then Some(Pii) else if Belongs(name, Id) then Some(Id)
      else if Belongs(name, Ip) then Some(Ip) else None
  {
    hide Belongs, EndsWith, Contains;
    SecretFamily(name);
    TokenAndCookieFamilies(name);
    PersonFamilies(name);
    IdFamilies(name);
  }

  /** Whatever the spelling: a configured name is of the configured kind, any other
      of its first family's, and a name outside all families is not sensitive. */
  lemma SensitiveKindIff(key: string, name: string, custom: set<string>, kind: Kind)
    requires Spells(key, name)
    ensures SensitiveKind(key, custom) == Some(kind)
      <==> if name in custom then kind == Configured else FirstFamily(name, kind)
    ensures SensitiveKind(key, custom).None? <==> name !in custom && forall k: Kind :: !Belongs(name, k)
  {
    hide FirstFamily, Belongs, BuiltinKind, Spells;
    SpellsIff(key, name);
    BuiltinKindIff(name, kind);
  }

  /** A body is any name with `body` in it. */
  lemma BodyKeyIff(key: string, name: string)
    requires Spells(key, name)
    ensures IsBodyKey(key) <==> exists before: string, after: string :: name == before + "body" + after
  {
    hide Spells, NormalizeKey;
    SpellsIff(key, name);
    ContainsIff(name, "body");
  }

  // ---- what is put there ----------------------------------------------------------------

  function MarkText(kind: Kind, jwt: bool): string {
    match kind
    case Secret => "<redacted:secret>"
    case Token => if jwt then "<redacted:jwt>" else "<redacted:token>"
    case Cookie => "<redacted:cookie>"
    case Email => "<redacted:email>"
    case Pii => "<redacted:pii>"
    case Id => "<redacted:id>"
    case Ip => "<redacted:ip>"
    case Configured => "<redacted:configured>"
  }

  lemma PlaceholderText(kind: Kind, jwt: bool)
    ensures Placeholder(kind, kind.Token? && jwt) == MarkText(kind, jwt)
  {
  }

  /** A text at a sensitive name gives way to its kind's placeholder, however the
      name is spelled; anything else there that is no container does, too. */
  lemma NamedValueIsReplaced(p: Policy, key: string, name: string, kind: Kind, v: Value)
    requires Spells(key, name) && (if name in p.custom then kind == Configured else FirstFamily(name, kind))
    requires !IsContainer(v) && !IsPlaceholder(v)
    ensures
      var mark := MarkText(kind, v.Str? && p.isJwt(v.s));
      && Redact(p, Object([Field(key, v)])).0 == Object([Field(key, Str(mark))])
      && Redact(p, Object([Field(key, v)])).1.values == 1
  {
    hide Spells, FirstFamily, SensitiveKind, Placeholder, IsMark, IsBodyKey, Redact;
    SensitiveKindIff(key, name, p.custom, kind);
    PlaceholderText(kind, v.Str? && p.isJwt(v.s));
    LoneEntry(p, Field(key, v));
  }

  lemma LoneEntry(p: Policy, f: Field)
    requires Sensitive(p, f.key)
    ensures Redact(p, Object([f])).0 == Object([Field(f.key, RedactEntry(p, f).0)])
    ensures Redact(p, Object([f])).1.values == RedactEntry(p, f).1.values
  {
    hide RedactEntry, IsBodyKey, SensitiveKind, RedactFields, BodyFlags, FieldsChange, WithFlags;
    var fields := [f];
    assert fields[1..] == [];
    ObjectRedacted(p, fields);
    FirstField(p, fields);
    FieldsChangeStep(p, fields);
    NoFields(p);
    NotFlagged(p, f);
    EmptyFlags(RedactFields(p, fields));
  }

  lemma ObjectRedacted(p: Policy, fields: seq<Field>)
    ensures Redact(p, Object(fields)).0 == Object(WithFlags(RedactFields(p, fields), BodyFlags(p, fields)))
    ensures Redact(p, Object(fields)).1 == FieldsChange(p, fields)
  {
    hide RedactFields, BodyFlags, FieldsChange, WithFlags;
  }

  lemma NotFlagged(p: Policy, f: Field)
    requires Sensitive(p, f.key)
    ensures !Flagged(p, f, Redact(p, f.value).1)
  {
    hide SensitiveKind, Redact, IsBodyKey;
  }

  /** A query parameter at a sensitive name reads back as the placeholder. */
  lemma NamedParameterIsReplaced(c: R.Codec, p: Policy, t: string, x: nat, name: string, kind: Kind)
    requires R.Faithful(c) && R.Parse(t).query.Some? && x < |R.Parse(t).query.value|
    requires SplitOnce(R.Parse(t).query.value[x], '=').Some?
    requires
      var (raw, value) := SplitOnce(R.Parse(t).query.value[x], '=').value;
      && Spells(c.decode(raw), name) && (if name in p.custom then kind == Configured else FirstFamily(name, kind))
      && value != "" && !IsMark(c.decode(value))
    ensures
      var after := R.Parse(R.RedactTarget(c, p, t).0).query;
      && after.Some? && x < |after.value| && SplitOnce(after.value[x], '=').Some?
      && var (raw, value) := SplitOnce(R.Parse(t).query.value[x], '=').value;
      SplitOnce(after.value[x], '=').value.0 == raw
      && c.decode(SplitOnce(after.value[x], '=').value.1) == MarkText(kind, p.isJwt(c.decode(value)))
  {
    hide Spells, FirstFamily, SensitiveKind, Placeholder, IsMark, R.Parse, R.RedactTarget, R.Faithful, SplitOnce;
    var (raw, value) := SplitOnce(R.Parse(t).query.value[x], '=').value;
    R.ParametersAreRedacted(c, p, t, x);
    SensitiveKindIff(c.decode(raw), name, p.custom, kind);
    PlaceholderText(kind, p.isJwt(c.decode(value)));
  }
}
