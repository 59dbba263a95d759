/**
 Redaction of HTTP request targets (`redact_request_target`,
 cli/src/redaction.rs).  Components are those of sections 3.3 to 3.5 of RFC 3986;
 the percent-coding of section 2.1 is a parameter.
 */
module RequestTarget {
  import opened Basics
  import opened Text
  import opened Placeholders
  import opened SensitiveNames
  import opened JsonRedaction

  datatype Codec = Codec(decode: string -> string, encode: string -> string)

  // ---- components ---------------------------------------------------------------

  datatype Target = Target(path: seq<string>, query: Option<seq<string>>, fragment: Option<string>)

  function Parse(t: string): Target {
    var (head, fragment) := OptionalTail(t, '#');
    var (path, query) := OptionalTail(head, '?');
    Target(Split(path, '/'), if query.Some? then Some(Split(query.value, '&')) else None, fragment)
  }

  /** `split_once`, with the whole text as head when there is no separator. */
  function OptionalTail(t: string, c: char): (string, Option<string>) {
    var parts := SplitOnce(t, c);
    if parts.Some? then (parts.value.0, Some(parts.value.1)) else (t, None)
  }

  function WithTail(head: string, c: char, tail: Option<string>): string {
    if tail.Some? then head + [c] + tail.value else head
  }

  function Print(x: Target): string {
    var query := if x.query.Some? then Some(Join(x.query.value, '&')) else None;
    WithTail(WithTail(Join(x.path, '/'), '?', query), '#', x.fragment)
  }

  // ---- redaction ------------------------------------------------------------------

  function RedactComponent(c: Codec, p: Policy, raw: string): (string, bool) {
    var decoded := c.decode(raw);
    var redacted := p.redactText(decoded).0;
    if redacted == decoded then (raw, false) else (c.encode(redacted), true)
  }

  function RedactSensitive(c: Codec, p: Policy, kind: Kind, raw: string): (string, bool) {
    var decoded := c.decode(raw);
    if raw == "" || IsMark(decoded) then (raw, false)
    else
      var replacement := c.encode(Placeholder(kind, kind.Token? && p.isJwt(decoded)));
      (replacement, replacement != raw)
  }

  function RedactParameter(c: Codec, p: Policy, parameter: string): (string, bool) {
    var parts := SplitOnce(parameter, '=');
    if parts.None? then RedactComponent(c, p, parameter)
    else
      var (name, value) := parts.value;
      var kind := SensitiveKind(c.decode(name), p.custom);
      var redacted := if kind.Some? then RedactSensitive(c, p, kind.value, value) else RedactComponent(c, p, value);
      (name + "=" + redacted.0, redacted.1)
  }

  function RedactPath(c: Codec, p: Policy, segments: seq<string>): (r: (seq<string>, bool))
    ensures |r.0| == |segments|
  {
    if segments == [] then ([], false)
    else
      var first, rest := RedactComponent(c, p, segments[0]), RedactPath(c, p, segments[1..]);
      ([first.0] + rest.0, first.1 || rest.1)
  }

  function RedactQuery(c: Codec, p: Policy, parameters: seq<string>): (r: (seq<string>, bool))
    ensures |r.0| == |parameters|
  {
    if parameters == [] then ([], false)
    else
      var first, rest := RedactParameter(c, p, parameters[0]), RedactQuery(c, p, parameters[1..]);
      ([first.0] + rest.0, first.1 || rest.1)
  }

  function RedactParts(c: Codec, p: Policy, x: Target): (Target, bool) {
    var path := RedactPath(c, p, x.path);
    var query := if x.query.Some? then RedactQuery(c, p, x.query.value) else ([], false);
    var fragment := if x.fragment.Some? then RedactComponent(c, p, x.fragment.value) else ("", false);
    (Target(path.0,
            if x.query.Some? then Some(query.0) else None,
            if x.fragment.Some? then Some(fragment.0) else None),
     path.1 || query.1 || fragment.1)
  }

  function RedactTarget(c: Codec, p: Policy, t: string): (string, bool) {
    var r := RedactParts(c, p, Parse(t));
    (Print(r.0), r.1)
  }

  // ---- what is asked of the codec and of the text policy -----------------------------

  /** Decoding undoes encoding, and encoded text holds no delimiter. */
  ghost predicate Faithful(c: Codec) {
    && (forall s: string :: c.decode(c.encode(s)) == s)
    && (forall s: string :: Lacks(c.encode(s), ['#', '?', '/', '&', '=']))
  }

  predicate Lacks(s: string, chars: seq<char>) {
    forall x :: 0 <= x < |chars| ==> chars[x] !in s
  }

  /** The text of a second pass is that of the first. */
  ghost predicate TextSettles(p: Policy) {
    forall s: string :: p.redactText(p.redactText(s).0).0 == p.redactText(s).0
  }

  // ---- parsing and printing are inverse -------------------------------------------------

  predicate AllLack(pieces: seq<string>, chars: seq<char>) {
    forall x :: 0 <= x < |pieces| ==> Lacks(pieces[x], chars)
  }

  predicate WellFormed(x: Target) {
    && x.path != [] && AllLack(x.path, ['/', '?', '#'])
    && (x.query.Some? ==> x.query.value != [] && AllLack(x.query.value, ['&', '#']))
  }

  lemma {:induction false} JoinLacks(pieces: seq<string>, sep: char, c: char)
    requires c != sep
    ensures c !in Join(pieces, sep) <==> forall x :: 0 <= x < |pieces| ==> c !in pieces[x]
  {
    if |pieces| > 1 {
      JoinLacks(pieces[1..], sep, c);
      assert forall x :: 0 <= x < |pieces[1..]| ==> pieces[1..][x] == pieces[x + 1];
    }
  }

  lemma TailRoundTrip(head: string, c: char, tail: Option<string>)
    requires c !in head
    ensures OptionalTail(WithTail(head, c, tail), c) == (head, tail)
  {
    if tail.Some? {
      SplitOnceAt(head, c, tail.value);
    }
  }

  /** Parsing a printed target gives it back. */
  lemma PrintedTargetParses(x: Target)
    requires WellFormed(x)
    ensures Parse(Print(x)) == x
  {
    hide Join, Split, SplitOnce, WithTail, OptionalTail;
    var path := Join(x.path, '/');
    var query := if x.query.Some? then Some(Join(x.query.value, '&')) else None;
    PiecesLack(x.path, ['/', '?', '#'], 0);
    PiecesLack(x.path, ['/', '?', '#'], 1);
    PiecesLack(x.path, ['/', '?', '#'], 2);
    JoinLacks(x.path, '/', '?');
    JoinLacks(x.path, '/', '#');
    SplitJoin(x.path, '/');
    if x.query.Some? {
      PiecesLack(x.query.value, ['&', '#'], 0);
      PiecesLack(x.query.value, ['&', '#'], 1);
      JoinLacks(x.query.value, '&', '#');
      SplitJoin(x.query.value, '&');
    }
    var head := WithTail(path, '?', query);
    TailLacks(path, '?', query, '#');
    TailRoundTrip(head, '#', x.fragment);
    TailRoundTrip(path, '?', query);
  }

  lemma TailLacks(head: string, sep: char, tail: Option<string>, c: char)
    requires c != sep && c !in head && (tail.Some? ==> c !in tail.value)
    ensures c !in WithTail(head, sep, tail)
  {
  }

  lemma PiecesLack(pieces: seq<string>, chars: seq<char>, k: nat)
    requires AllLack(pieces, chars) && k < |chars|
    ensures forall x :: 0 <= x < |pieces| ==> chars[k] !in pieces[x]
  {
    forall x | 0 <= x < |pieces| ensures chars[k] !in pieces[x] {
      assert Lacks(pieces[x], chars);
    }
  }

  /** Printing a parsed target gives back the text, byte for byte. */
  lemma ParsedTargetPrints(t: string)
    ensures Print(Parse(t)) == t && WellFormed(Parse(t))
  {
    hide Join, Split, SplitOnce;
    var (head, fragment) := OptionalTail(t, '#');
    var (path, query) := OptionalTail(head, '?');
    HeadOfTail(t, '#');
    HeadOfTail(head, '?');
    assert '#' !in head && '#' !in path && '?' !in path;
    SplitLacks(path, '/', '?');
    SplitLacks(path, '/', '#');
    var segments := Split(path, '/');
    forall x | 0 <= x < |segments| ensures Lacks(segments[x], ['/', '?', '#']) {
    }
    if query.Some? {
      assert '#' !in query.value;
      SplitLacks(query.value, '&', '#');
      var parameters := Split(query.value, '&');
      forall x | 0 <= x < |parameters| ensures Lacks(parameters[x], ['&', '#']) {
      }
    }
  }

  lemma HeadOfTail(t: string, c: char)
    ensures WithTail(OptionalTail(t, c).0, c, OptionalTail(t, c).1) == t
    ensures c !in OptionalTail(t, c).0
    ensures forall d :: d in OptionalTail(t, c).0 ==> d in t
    ensures OptionalTail(t, c).1.Some? ==> forall d :: d in OptionalTail(t, c).1.value ==> d in t
  {
  }

  lemma SplitLacks(s: string, sep: char, c: char)
    requires c != sep && c !in s
    ensures forall x :: 0 <= x < |Split(s, sep)| ==> c !in Split(s, sep)[x]
  {
    JoinLacks(Split(s, sep), sep, c);
  }

  // ---- structure ---------------------------------------------------------------------------

  lemma ComponentLacks(c: Codec, p: Policy, raw: string, chars: seq<char>)
    requires Faithful(c) && Lacks(raw, chars)
    requires forall x :: 0 <= x < |chars| ==> chars[x] in ['#', '?', '/', '&', '=']
    ensures Lacks(RedactComponent(c, p, raw).0, chars)
  {
    var encoded := c.encode(p.redactText(c.decode(raw)).0);
    assert Lacks(encoded, ['#', '?', '/', '&', '=']);
    forall x | 0 <= x < |chars| ensures chars[x] !in encoded {
      var y :| 0 <= y < 5 && ['#', '?', '/', '&', '='][y] == chars[x];
    }
  }

  lemma SensitiveLacks(c: Codec, p: Policy, kind: Kind, raw: string, chars: seq<char>)
    requires Faithful(c) && Lacks(raw, chars)
    requires forall x :: 0 <= x < |chars| ==> chars[x] in ['#', '?', '/', '&', '=']
    ensures Lacks(RedactSensitive(c, p, kind, raw).0, chars)
  {
    hide IsMark, Placeholder;
    var encoded := c.encode(Placeholder(kind, kind.Token? && p.isJwt(c.decode(raw))));
    assert Lacks(encoded, ['#', '?', '/', '&', '=']);
    forall x | 0 <= x < |chars| ensures chars[x] !in encoded {
      var y :| 0 <= y < 5 && ['#', '?', '/', '&', '='][y] == chars[x];
    }
  }

  /** A parameter keeps its raw name; one without `=` gets none. */
  lemma ParameterKeepsName(c: Codec, p: Policy, parameter: string)
    requires Faithful(c)
    ensures
      var before, after := SplitOnce(parameter, '='), SplitOnce(RedactParameter(c, p, parameter).0, '=');
      && before.Some? == after.Some?
      && (before.Some? ==> before.value.0 == after.value.0)
  {
    hide Faithful, SensitiveKind, RedactSensitive, RedactComponent, Find;
    var parts := SplitOnce(parameter, '=');
    if parts.Some? {
      var (name, value) := parts.value;
      var kind := SensitiveKind(c.decode(name), p.custom);
      var redacted := if kind.Some? then RedactSensitive(c, p, kind.value, value) else RedactComponent(c, p, value);
      SplitOnceAt(name, '=', redacted.0);
    } else {
      ComponentLacks(c, p, parameter, ['=']);
      assert ['='][0] !in RedactComponent(c, p, parameter).0;
    }
  }

  lemma ParameterLacks(c: Codec, p: Policy, parameter: string)
    requires Faithful(c) && Lacks(parameter, ['&', '#'])
    ensures Lacks(RedactParameter(c, p, parameter).0, ['&', '#'])
  {
    hide Faithful, SensitiveKind, RedactSensitive, RedactComponent, Find;
    var chars := ['&', '#'];
    var parts := SplitOnce(parameter, '=');
    if parts.Some? {
      var (name, value) := parts.value;
      forall x | 0 <= x < 2 ensures chars[x] !in name && chars[x] !in value {
        assert chars[x] !in parameter;
      }
      var kind := SensitiveKind(c.decode(name), p.custom);
      if kind.Some? {
        SensitiveLacks(c, p, kind.value, value, chars);
      } else {
        ComponentLacks(c, p, value, chars);
      }
    } else {
      ComponentLacks(c, p, parameter, chars);
    }
  }

  lemma {:induction false} PathAt(c: Codec, p: Policy, segments: seq<string>, x: nat)
    requires x < |segments|
    ensures RedactPath(c, p, segments).0[x] == RedactComponent(c, p, segments[x]).0
  {
    hide RedactComponent;
    if x > 0 {
      PathAt(c, p, segments[1..], x - 1);
    }
  }

  lemma {:induction false} QueryAt(c: Codec, p: Policy, parameters: seq<string>, x: nat)
    requires x < |parameters|
    ensures RedactQuery(c, p, parameters).0[x] == RedactParameter(c, p, parameters[x]).0
  {
    hide RedactParameter;
    if x > 0 {
      QueryAt(c, p, parameters[1..], x - 1);
    }
  }

  lemma RedactedIsWellFormed(c: Codec, p: Policy, x: Target)
    requires Faithful(c) && WellFormed(x)
    ensures WellFormed(RedactParts(c, p, x).0)
  {
    hide Faithful, RedactComponent, RedactParameter, RedactPath, RedactQuery, Lacks;
    var chars := ['/', '?', '#'];
    forall k | 0 <= k < |x.path| ensures Lacks(RedactPath(c, p, x.path).0[k], chars) {
      PathAt(c, p, x.path, k);
      ComponentLacks(c, p, x.path[k], chars);
    }
    if x.query.Some? {
      forall k | 0 <= k < |x.query.value| ensures Lacks(RedactQuery(c, p, x.query.value).0[k], ['&', '#']) {
        QueryAt(c, p, x.query.value, k);
        ParameterLacks(c, p, x.query.value[k]);
      }
    }
  }

  /** Redaction works component by component: the printed result splits exactly as the input did. */
  lemma StructureIsKept(c: Codec, p: Policy, t: string)
    requires Faithful(c)
    ensures
      var before, after := Parse(t), Parse(RedactTarget(c, p, t).0);
      && |after.path| == |before.path|
      && after.fragment.Some? == before.fragment.Some?
      && after.query.Some? == before.query.Some?
      && (before.query.Some? ==> |after.query.value| == |before.query.value|)
      && after == RedactParts(c, p, before).0
  {
    hide Faithful, RedactPath, RedactQuery, RedactComponent, Parse, Print, WellFormed;
    ParsedTargetPrints(t);
    RedactedIsWellFormed(c, p, Parse(t));
    PrintedTargetParses(RedactParts(c, p, Parse(t)).0);
  }

  /** What a named parameter's value becomes: a placeholder at a sensitive name, or
      else what the policy makes of it; not a byte moves where nothing is to change. */
  predicate ValueRedacted(c: Codec, p: Policy, name: string, value: string, after: string) {
    var kind := SensitiveKind(c.decode(name), p.custom);
    if kind.Some? then
      if value == "" || IsMark(c.decode(value)) then after == value
      else c.decode(after) == Placeholder(kind.value, kind.value.Token? && p.isJwt(c.decode(value)))
    else ComponentRedacted(c, p, value, after)
  }

  predicate ComponentRedacted(c: Codec, p: Policy, raw: string, after: string) {
    && c.decode(after) == p.redactText(c.decode(raw)).0
    && (p.redactText(c.decode(raw)).0 == c.decode(raw) ==> after == raw)
  }

  /** Parameter by parameter: the raw name stays, and so does the lack of one. */
  lemma ParametersAreRedacted(c: Codec, p: Policy, t: string, x: nat)
    requires Faithful(c) && Parse(t).query.Some? && x < |Parse(t).query.value|
    ensures
      var before, after := Parse(t).query.value, Parse(RedactTarget(c, p, t).0).query;
      && after.Some? && x < |after.value|
      && var was, now := SplitOnce(before[x], '='), SplitOnce(after.value[x], '=');
      if was.Some? then
        now.Some? && now.value.0 == was.value.0 && ValueRedacted(c, p, was.value.0, was.value.1, now.value.1)
      else
        now.None? && ComponentRedacted(c, p, before[x], after.value[x])
  {
    hide RedactTarget, Parse, RedactComponent, RedactQuery, IsMark, SensitiveKind, Find, ComponentRedacted;
    StructureIsKept(c, p, t);
    var parameter := Parse(t).query.value[x];
    QueryAt(c, p, Parse(t).query.value, x);
    ParameterKeepsName(c, p, parameter);
    if SplitOnce(parameter, '=').None? {
      ComponentMeansRedacted(c, p, parameter);
    } else {
      var (name, value) := SplitOnce(parameter, '=').value;
      var kind := SensitiveKind(c.decode(name), p.custom);
      if kind.Some? {
        SplitOnceAt(name, '=', RedactSensitive(c, p, kind.value, value).0);
      } else {
        SplitOnceAt(name, '=', RedactComponent(c, p, value).0);
        ComponentMeansRedacted(c, p, value);
      }
    }
  }

  lemma SensitiveValueIsMark(c: Codec, p: Policy, kind: Kind, value: string)
    requires Faithful(c)
    ensures value != "" ==> IsMark(c.decode(RedactSensitive(c, p, kind, value).0))
    ensures value == "" ==> RedactSensitive(c, p, kind, value).0 == ""
  {
    hide IsPlainMark, IsEncodedMark, Placeholder;
    PlaceholderIsMark(kind, kind.Token? && p.isJwt(c.decode(value)));
  }

  /** A component is read back as the policy's version of what it said; if that is no change, not a byte moves. */
  lemma ComponentMeansRedacted(c: Codec, p: Policy, raw: string)
    requires Faithful(c)
    ensures ComponentRedacted(c, p, raw, RedactComponent(c, p, raw).0)
  {
  }

  lemma PathIsRedacted(c: Codec, p: Policy, t: string, x: nat)
    requires Faithful(c) && x < |Parse(t).path|
    ensures
      var before, after := Parse(t).path, Parse(RedactTarget(c, p, t).0).path;
      x < |after| && ComponentRedacted(c, p, before[x], after[x])
  {
    hide RedactTarget, Parse, RedactComponent, RedactPath;
    StructureIsKept(c, p, t);
    PathAt(c, p, Parse(t).path, x);
    ComponentMeansRedacted(c, p, Parse(t).path[x]);
  }

  lemma FragmentIsRedacted(c: Codec, p: Policy, t: string)
    requires Faithful(c) && Parse(t).fragment.Some?
    ensures
      var before, after := Parse(t).fragment, Parse(RedactTarget(c, p, t).0).fragment;
      after.Some? && ComponentRedacted(c, p, before.value, after.value)
  {
    hide RedactTarget, Parse, RedactComponent, RedactPath;
    StructureIsKept(c, p, t);
    ComponentMeansRedacted(c, p, Parse(t).fragment.value);
  }

  // ---- what is reported, and the second pass ---------------------------------------------------

  lemma ComponentReports(c: Codec, p: Policy, raw: string)
    requires Faithful(c)
    ensures RedactComponent(c, p, raw).1 <==> RedactComponent(c, p, raw).0 != raw
  {
  }

  lemma ParameterReports(c: Codec, p: Policy, parameter: string)
    requires Faithful(c)
    ensures RedactParameter(c, p, parameter).1 <==> RedactParameter(c, p, parameter).0 != parameter
  {
    hide Faithful, SensitiveKind, RedactComponent, IsMark, Placeholder, Find;
    var parts := SplitOnce(parameter, '=');
    if parts.Some? {
      var (name, value) := parts.value;
      ComponentReports(c, p, value);
      var r := RedactParameter(c, p, parameter).0;
      assert parameter == name + "=" + value;
      assert r[|name| + 1..] != value ==> r != parameter by {
        assert parameter[|name| + 1..] == value;
      }
      var kind := SensitiveKind(c.decode(name), p.custom);
      var redacted := if kind.Some? then RedactSensitive(c, p, kind.value, value) else RedactComponent(c, p, value);
      assert r[|name| + 1..] == redacted.0;
    } else {
      ComponentReports(c, p, parameter);
    }
  }

  lemma {:induction false} PathReports(c: Codec, p: Policy, segments: seq<string>)
    requires Faithful(c)
    ensures RedactPath(c, p, segments).1 <==> RedactPath(c, p, segments).0 != segments
  {
    hide Faithful, RedactComponent;
    if segments != [] {
      ComponentReports(c, p, segments[0]);
      PathReports(c, p, segments[1..]);
      HeadAndTail(segments);
      assert RedactPath(c, p, segments).0[1..] == RedactPath(c, p, segments[1..]).0;
    }
  }

  lemma {:induction false} QueryReports(c: Codec, p: Policy, parameters: seq<string>)
    requires Faithful(c)
    ensures RedactQuery(c, p, parameters).1 <==> RedactQuery(c, p, parameters).0 != parameters
  {
    hide Faithful, RedactParameter;
    if parameters != [] {
      ParameterReports(c, p, parameters[0]);
      QueryReports(c, p, parameters[1..]);
      HeadAndTail(parameters);
      assert RedactQuery(c, p, parameters).0[1..] == RedactQuery(c, p, parameters[1..]).0;
    }
  }

  /** A change is reported exactly when the text differs. */
  lemma ReportedIffChanged(c: Codec, p: Policy, t: string)
    requires Faithful(c)
    ensures RedactTarget(c, p, t).1 <==> RedactTarget(c, p, t).0 != t
  {
    hide Faithful, RedactPath, RedactQuery, RedactComponent, Parse, Print, WellFormed;
    var x := Parse(t);
    ParsedTargetPrints(t);
    StructureIsKept(c, p, t);
    PathReports(c, p, x.path);
    if x.query.Some? {
      QueryReports(c, p, x.query.value);
    }
    if x.fragment.Some? {
      ComponentReports(c, p, x.fragment.value);
    }
    assert RedactTarget(c, p, t).1 <==> RedactParts(c, p, x).0 != x;
  }

  lemma ComponentSettles(c: Codec, p: Policy, raw: string)
    requires Faithful(c) && TextSettles(p)
    ensures RedactComponent(c, p, RedactComponent(c, p, raw).0) == (RedactComponent(c, p, raw).0, false)
  {
  }

  lemma ParameterSettles(c: Codec, p: Policy, parameter: string)
    requires Faithful(c) && TextSettles(p)
    ensures RedactParameter(c, p, RedactParameter(c, p, parameter).0) == (RedactParameter(c, p, parameter).0, false)
  {
    hide Faithful, TextSettles, SensitiveKind, RedactSensitive, RedactComponent, Find;
    ParameterKeepsName(c, p, parameter);
    var parts := SplitOnce(parameter, '=');
    if parts.Some? {
      var (name, value) := parts.value;
      var kind := SensitiveKind(c.decode(name), p.custom);
      if kind.Some? {
        SensitiveSettles(c, p, kind.value, value);
        SplitOnceAt(name, '=', RedactSensitive(c, p, kind.value, value).0);
      } else {
        ComponentSettles(c, p, value);
        SplitOnceAt(name, '=', RedactComponent(c, p, value).0);
      }
    } else {
      ComponentSettles(c, p, parameter);
    }
  }

  lemma SensitiveSettles(c: Codec, p: Policy, kind: Kind, value: string)
    requires Faithful(c)
    ensures RedactSensitive(c, p, kind, RedactSensitive(c, p, kind, value).0)
      == (RedactSensitive(c, p, kind, value).0, false)
  {
    hide IsMark, Placeholder;
    SensitiveValueIsMark(c, p, kind, value);
  }

  lemma {:induction false} PathSettles(c: Codec, p: Policy, segments: seq<string>)
    requires Faithful(c) && TextSettles(p)
    ensures !RedactPath(c, p, RedactPath(c, p, segments).0).1
  {
    hide Faithful, TextSettles, RedactComponent;
    if segments != [] {
      ComponentSettles(c, p, segments[0]);
      PathSettles(c, p, segments[1..]);
      assert RedactPath(c, p, segments).0[1..] == RedactPath(c, p, segments[1..]).0;
    }
  }

  lemma {:induction false} QuerySettles(c: Codec, p: Policy, parameters: seq<string>)
    requires Faithful(c) && TextSettles(p)
    ensures !RedactQuery(c, p, RedactQuery(c, p, parameters).0).1
  {
    hide Faithful, TextSettles, RedactParameter;
    if parameters != [] {
      ParameterSettles(c, p, parameters[0]);
      QuerySettles(c, p, parameters[1..]);
      assert RedactQuery(c, p, parameters).0[1..] == RedactQuery(c, p, parameters[1..]).0;
    }
  }

  /** A second pass changes nothing and says so. */
  lemma SecondPassIsQuiet(c: Codec, p: Policy, t: string)
    requires Faithful(c) && TextSettles(p)
    ensures RedactTarget(c, p, RedactTarget(c, p, t).0) == (RedactTarget(c, p, t).0, false)
  {
    hide Faithful, TextSettles, RedactPath, RedactQuery, RedactComponent, Parse, Print;
    var x, once := Parse(t), RedactTarget(c, p, t).0;
    StructureIsKept(c, p, t);
    PathSettles(c, p, x.path);
    if x.query.Some? {
      QuerySettles(c, p, x.query.value);
    }
    if x.fragment.Some? {
      ComponentSettles(c, p, x.fragment.value);
    }
    assert !RedactTarget(c, p, once).1;
    ReportedIffChanged(c, p, once);
  }
}
