/**
 Which JSON keys, headers and query parameters name sensitive values:
 cli/src/redaction.rs.
 */
module SensitiveNames {
  import opened Basics
  import opened Text
  import opened Placeholders

  predicate IsAlphanumeric(c: char) {
    'a' <= c <= 'z' || 'A' <= c <= 'Z' || '0' <= c <= '9'
  }

  /** ASCII letters and digits only, in lower case. */
  function NormalizeKey(key: string): string {
    if key == [] then []
    else (if IsAlphanumeric(key[0]) then [Lower(key[0])] else []) + NormalizeKey(key[1..])
  }

  lemma {:induction false} NormalizeLetters(s: string)
    requires forall x :: 0 <= x < |s| ==> 'a' <= s[x] <= 'z'
    ensures NormalizeKey(s) == s
  {
    if s != "" {
      NormalizeLetters(s[1..]);
    }
  }

  lemma {:induction false} NormalizeConcat(a: string, b: string)
    ensures NormalizeKey(a + b) == NormalizeKey(a) + NormalizeKey(b)
  {
    hide IsAlphanumeric, Lower;
    if a == "" {
      assert a + b == b;
    } else {
      hide NormalizeKey;
      NormalizeConcat(a[1..], b);
      assert a + b == [a[0]] + (a[1..] + b);
      NormalizeStep(a[0], a[1..]);
      NormalizeStep(a[0], a[1..] + b);
      HeadAndTail(a);
    }
  }

  lemma NormalizeStep(c: char, s: string)
    ensures NormalizeKey([c] + s) == (if IsAlphanumeric(c) then [Lower(c)] else []) + NormalizeKey(s)
  {
    assert ([c] + s)[1..] == s;
  }

  function BuiltinKind(k: string): Option<Kind> {
    if k in ["password", "passwd", "pwd", "passcode", "pin", "secret", "clientsecret"]
       || EndsWith(k, "password") || EndsWith(k, "secret") then Some(Secret)
    else if k in ["authorization", "proxyauthorization", "auth"] then Some(Token)
    else if Contains(k, "token") || k in ["apikey", "apiaccesskey"] then Some(Token)
    else if Contains(k, "cookie") then Some(Cookie)
    else if EndsWith(k, "email") then Some(Email)
    else if k in ["username", "userlogin", "phone", "phonenumber"] || EndsWith(k, "username") then Some(Pii)
    else if k in ["session", "sessionid", "device", "deviceid", "androidid", "transactionid", "serial"]
            || EndsWith(k, "sessionid") || EndsWith(k, "deviceid") || EndsWith(k, "transactionid") then Some(Id)
    else if k in ["ip", "ipaddress", "clientip", "remoteip"] then Some(Ip)
    else None
  }

  function SensitiveKind(key: string, custom: set<string>): Option<Kind> {
    if NormalizeKey(key) in custom then Some(Configured) else BuiltinKind(NormalizeKey(key))
  }

  predicate IsBodyKey(key: string) {
    Contains(NormalizeKey(key), "body")
  }

  function FlagName(key: string): string {
    key + "_redacted"
  }

  /** Punctuation in a name, and the case of its letters, do not matter. */
  lemma SpellingMakesNoDifference(a: string, c: char, b: string, custom: set<string>)
    ensures !IsAlphanumeric(c) ==> SensitiveKind(a + [c] + b, custom) == SensitiveKind(a + b, custom)
    ensures SensitiveKind(a + [c] + b, custom) == SensitiveKind(a + [Lower(c)] + b, custom)
    ensures IsBodyKey(a + [c] + b) == IsBodyKey(a + [Lower(c)] + b)
  {
    hide NormalizeKey, BuiltinKind;
    NormalizeConcat(a + [c], b);
    NormalizeConcat(a, [c]);
    NormalizeConcat(a + [Lower(c)], b);
    NormalizeConcat(a, [Lower(c)]);
    NormalizeConcat(a, b);
    NormalizeStep(c, "");
    NormalizeStep(Lower(c), "");
    assert [c] + "" == [c] && [Lower(c)] + "" == [Lower(c)];
    assert !IsAlphanumeric(c) ==> NormalizeKey([c]) == NormalizeKey("");
    NormalizeNothing(a);
  }

  lemma NormalizeNothing(a: string)
    ensures NormalizeKey(a) + NormalizeKey("") == NormalizeKey(a)
  {
  }
}
