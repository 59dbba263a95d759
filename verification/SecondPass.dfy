/**
 When redacting twice is the same as redacting once: exactly when no key that
 names a generated flag is itself sensitive, which the built-in names never are.
 */
module SecondPass {
  import opened Basics
  import opened Json
  import opened Text
  import opened SensitiveNames
  import opened JsonRedaction
  import opened JsonGuarantees

  ghost predicate OnePassSettles(p: Policy) {
    forall v: Value :: Quiet(p, Redact(p, v).0)
  }

  lemma OnePassSettlesIff(p: Policy)
    requires StableText(p)
    ensures OnePassSettles(p) <==> FlagsAreSafe(p)
  {
    hide StableText, FlagsAreSafe, Quiet, Redact;
    if FlagsAreSafe(p) {
      forall v: Value ensures Quiet(p, Redact(p, v).0) {
        SecondPassIsQuiet(p, v);
      }
    } else {
      var key, bad := Unsettled(p);
    }
  }

  /** A body with one member. */
  function BodyWith(key: string, member: string): Value {
    Object([Field(key, Object([Field(member, Null)]))])
  }

  /** A body whose flag the second pass takes for a secret. */
  lemma Unsettled(p: Policy) returns (key: string, bad: string)
    requires !FlagsAreSafe(p)
    ensures CanRaise(p, key) && !Quiet(p, Redact(p, BodyWith(key, bad)).0)
  {
    hide SensitiveKind, IsBodyKey, FlagName;
    key :| CanRaise(p, key) && (Sensitive(p, FlagName(key)) || Sensitive(p, "body_redacted"));
    bad := if Sensitive(p, FlagName(key)) then FlagName(key) else "body_redacted";
    UnsettledBy(p, key, bad);
  }

  lemma UnsettledBy(p: Policy, key: string, bad: string)
    requires CanRaise(p, key) && Sensitive(p, bad) && (bad == FlagName(key) || bad == "body_redacted")
    ensures !Quiet(p, Redact(p, BodyWith(key, bad)).0)
  {
    hide SensitiveKind, IsBodyKey, FlagName, RedactEntry;
    var inner := Field(bad, Null);
    var outer := Field(key, Object([inner]));
    LoudEntry(p, inner);
    QuietMembers(p, [inner]);
    assert inner in [inner];
    OneFlag(p, outer);
    var out := WithFlags(RedactFields(p, [outer]), BodyFlags(p, [outer]));
    FlagsArePut(RedactFields(p, [outer]), FlagName(key));
    var flag := Field(bad, Bool(true));
    assert flag in out;
    LoudEntry(p, flag);
    QuietMembers(p, out);
  }

  /** Anything but a container or a placeholder at a sensitive key is replaced. */
  lemma LoudEntry(p: Policy, f: Field)
    requires Sensitive(p, f.key) && !IsContainer(f.value) && !IsPlaceholder(f.value)
    ensures !QuietEntry(p, f)
  {
    hide SensitiveKind, MarkFor;
  }

  lemma OneFlag(p: Policy, f: Field)
    requires CanRaise(p, f.key) && Redact(p, f.value).1.values > 0
    ensures BodyFlags(p, [f]) == [FlagName(f.key)]
  {
    hide SensitiveKind, IsBodyKey, FlagName, Redact;
  }

  lemma FlagsArePut(fields: seq<Field>, flag: string)
    ensures Field(flag, Bool(true)) in WithFlags(fields, [flag])
    ensures Field("body_redacted", Bool(true)) in WithFlags(fields, [flag])
  {
    var once := Insert(fields, "body_redacted", Bool(true));
    InsertPuts(fields, "body_redacted", Bool(true));
    InsertPuts(once, flag, Bool(true));
    InsertSpares(once, flag, "body_redacted");
    assert InsertAll(once, [flag]) == InsertAll(Insert(once, flag, Bool(true)), []);
  }

  lemma {:induction false} InsertPuts(fields: seq<Field>, key: string, value: Value)
    ensures Field(key, value) in Insert(fields, key, value)
  {
    if fields != [] && fields[0].key != key {
      InsertPuts(fields[1..], key, value);
    }
  }

  lemma {:induction false} InsertSpares(fields: seq<Field>, key: string, other: string)
    requires Field(other, Bool(true)) in fields
    ensures Field(other, Bool(true)) in Insert(fields, key, Bool(true))
  {
    var flag := Field(other, Bool(true));
    HeadAndTail(fields);
    if fields[0].key == key {
      assert Insert(fields, key, Bool(true)) == [Field(key, Bool(true))] + fields[1..];
    } else if flag != fields[0] {
      InsertSpares(fields[1..], key, other);
    }
  }

  // ---- which configured keys are safe ---------------------------------------------

  /** No configured key mentions a body and ends in `redacted`. */
  predicate NoFlagConfigured(p: Policy) {
    forall k :: k in p.custom ==> !(EndsWith(k, "redacted") && Contains(k, "body"))
  }

  lemma NoFlagConfiguredIsSafe(p: Policy)
    requires NoFlagConfigured(p)
    ensures FlagsAreSafe(p)
  {
    hide NormalizeKey, BuiltinKind, Contains, EndsWith, FlagName;
    forall key: string | CanRaise(p, key)
      ensures !Sensitive(p, FlagName(key)) && !Sensitive(p, "body_redacted")
    {
      var n := NormalizeKey(key);
      FlagNameNormal(key);
      BodyFlagNormal();
      assert BuiltinKind(n).None? && Contains(n, "body");
      FlagIsNoBuiltin(n);
      BodyIsNoBuiltin();
      FlagIsNoBuiltin("body");
      SelfContained("body");
      LongerContains(n, "redacted", "body");
      LongerContains("body", "redacted", "body");
      assert EndsWith(n + "redacted", "redacted") && EndsWith("body" + "redacted", "redacted") by {
        SuffixEnds(n, "redacted");
        SuffixEnds("body", "redacted");
      }
    }
  }

  lemma SuffixEnds(s: string, suffix: string)
    ensures EndsWith(s + suffix, suffix)
  {
  }

  lemma SelfContained(s: string)
    ensures Contains(s, s)
  {
    assert s[0..|s|] == s;
    SliceIsContained(s, 0, |s|);
  }

  lemma LongerContains(s: string, more: string, part: string)
    requires Contains(s, part)
    ensures Contains(s + more, part)
  {
    assert (s + more)[0..|s|] == s;
    SliceIsContained(s + more, 0, |s|);
    ContainsTransitive(s + more, s, part);
  }

  lemma SuffixNormal()
    ensures NormalizeKey("_redacted") == "redacted"
  {
    hide NormalizeKey;
    NormalizeLetters("redacted");
    NormalizeStep('_', "redacted");
    assert "_redacted" == ['_'] + "redacted";
  }

  lemma FlagNameNormal(key: string)
    ensures NormalizeKey(FlagName(key)) == NormalizeKey(key) + "redacted"
  {
    SuffixNormal();
    NormalizeConcat(key, "_redacted");
  }

  lemma BodyFlagNormal()
    ensures NormalizeKey("body_redacted") == "body" + "redacted"
  {
    hide NormalizeKey;
    SuffixNormal();
    NormalizeLetters("body");
    NormalizeConcat("body", "_redacted");
    assert "body" + "_redacted" == "body_redacted";
  }

  /** Adding `redacted` to a name makes no built-in sensitive name of it. */
  lemma FlagIsNoBuiltin(n: string)
    requires BuiltinKind(n).None?
    ensures BuiltinKind(n + "redacted").None?
  {
    hide Contains;
    NoWordAcross(n, "token", 'n');
    NoCookieAcross(n);
    assert !Contains(n, "token") && !Contains(n, "cookie");
    assert EndsInEd(n + "redacted");
    hide BuiltinKind;
    NoListedName(n + "redacted");
  }

  predicate EndsInEd(s: string) {
    |s| >= 2 && s[|s| - 2] == 'e' && s[|s| - 1] == 'd'
  }

  lemma NoListedName(k: string)
    requires EndsInEd(k) && !Contains(k, "token") && !Contains(k, "cookie")
    ensures BuiltinKind(k).None?
  {
    hide Contains, EndsWith;
    NotListed(k, ["password", "passwd", "pwd", "passcode", "pin", "secret", "clientsecret"]);
    NotListed(k, ["authorization", "proxyauthorization", "auth"]);
    NotListed(k, ["apikey", "apiaccesskey"]);
    NotListed(k, ["username", "userlogin", "phone", "phonenumber"]);
    NotListed(k, ["session", "sessionid", "device", "deviceid", "androidid", "transactionid", "serial"]);
    NotListed(k, ["ip", "ipaddress", "clientip", "remoteip"]);
    NoSuffix(k, "password");
    NoSuffix(k, "secret");
    NoSuffix(k, "email");
    NoSuffix(k, "username");
    NoSuffix(k, "sessionid");
    NoSuffix(k, "deviceid");
    NoSuffix(k, "transactionid");
  }

  lemma NotListed(k: string, names: seq<string>)
    requires EndsInEd(k) && forall x :: 0 <= x < |names| ==> !EndsInEd(names[x])
    ensures k !in names
  {
  }

  lemma NoSuffix(k: string, suffix: string)
    requires EndsInEd(k) && |suffix| >= 2 && !EndsInEd(suffix)
    ensures !EndsWith(k, suffix)
  {
  }

  lemma NoWordAcross(n: string, word: string, last: char)
    requires word != "" && word[|word| - 1] == last && last !in "redacted"
    ensures Contains(n + "redacted", word) ==> Contains(n, word)
  {
    var k := n + "redacted";
    if Contains(k, word) {
      var i: nat :| i <= |k| - |word| && OccursAt(k, word, i);
      assert k[i + |word| - 1] == k[i..i + |word|][|word| - 1] == last;
      assert i + |word| <= |n|;
      assert n[i..i + |word|] == k[i..i + |word|];
      assert OccursAt(n, word, i);
    }
  }

  lemma NoCookieAcross(n: string)
    ensures Contains(n + "redacted", "cookie") ==> Contains(n, "cookie")
  {
    var k, word := n + "redacted", "cookie";
    if Contains(k, word) {
      var i: nat :| i <= |k| - |word| && OccursAt(k, word, i);
      assert k[i + 5] == k[i..i + 6][5] == 'e' && k[i + 4] == k[i..i + 6][4] == 'i';
      assert i + 6 <= |n|;
      assert n[i..i + 6] == k[i..i + 6];
      assert OccursAt(n, word, i);
    }
  }

  lemma BodyIsNoBuiltin()
    ensures BuiltinKind("body").None?
  {
    assert "body"[3] == 'y';
  }
}
