/**
 Remembered screens and what changed between two of them: `element_keys`,
 `comparable` and `diff` of cli/src/screen_cache.rs.
 */
module ScreenDiff {
  import opened Basics
  import opened Json
  import opened Text

  type Element = map<string, Value>

  // ---- element keys -------------------------------------------------------------

  /** A non-empty text field. */
  function TextField(e: Element, name: string): Option<string> {
    if name in e && e[name].Str? && e[name].s != "" then Some(e[name].s) else None
  }

  function Base(e: Element): string {
    var klass := if TextField(e, "klass").Some? then TextField(e, "klass").value else "";
    if TextField(e, "rid").Some? then "rid:" + TextField(e, "rid").value
    else if TextField(e, "desc").Some? then "desc:" + klass + ":" + TextField(e, "desc").value
    else if TextField(e, "text").Some? then "text:" + klass + ":" + TextField(e, "text").value
    else "class:" + klass
  }

  function Decimal(n: nat): (s: string)
    ensures s != "" && forall i :: 0 <= i < |s| ==> IsDigit(s[i])
  {
    var last := [('0' as int + n % 10) as char];
    if n < 10 then last else Decimal(n / 10) + last
  }

  /** The key of the `n`th element with this base. */
  function Numbered(base: string, n: nat): string {
    if n == 1 then base else base + "#" + Decimal(n)
  }

  function Count(es: seq<Element>, base: string): nat {
    if es == [] then 0
    else Count(es[..|es| - 1], base) + (if Base(es[|es| - 1]) == base then 1 else 0)
  }

  function KeyOfLast(es: seq<Element>): string
    requires es != []
  {
    var base := Base(es[|es| - 1]);
    Numbered(base, Count(es[..|es| - 1], base) + 1)
  }

  function Keys(es: seq<Element>): (keys: seq<string>)
    ensures |keys| == |es|
  {
    if es == [] then [] else Keys(es[..|es| - 1]) + [KeyOfLast(es)]
  }

  method ElementKeys(es: seq<Element>) returns (keys: seq<string>)
    ensures keys == Keys(es)
  {
    hide Base, Numbered;
    var seen: map<string, nat> := map[];
    keys := [];
    for i := 0 to |es|
      invariant keys == Keys(es[..i])
      invariant forall base: string :: (if base in seen then seen[base] else 0) == Count(es[..i], base)
    {
      var base := Base(es[i]);
      var occurrence := (if base in seen then seen[base] else 0) + 1;
      seen := seen[base := occurrence];
      keys := keys + [Numbered(base, occurrence)];
      assert es[..i + 1][..i] == es[..i] && es[..i + 1][i] == es[i];
    }
    assert es[..|es|] == es;
  }

  // ---- the difference --------------------------------------------------------------

  const VOLATILE_FIELDS := {"id", "handle"}

  function Comparable(e: Element): Element {
    e - VOLATILE_FIELDS
  }

  /** An element that stayed, with the names of the fields that differ and what they were. */
  datatype Change = Change(key: string, fields: set<string>, before: map<string, Value>, element: Element)

  /** What is told of an element that went. */
  datatype Summary = Summary(key: string, shown: map<string, Value>)

  datatype Diff = Diff(added: seq<Element>, removed: seq<Summary>, changed: seq<Change>)

  function Differing(was: Element, now: Element): set<string> {
    set name | name in was.Keys + now.Keys && !(name in was && name in now && was[name] == now[name])
  }

  function Changed(key: string, was: Element, now: Element): Change {
    var (b, a) := (Comparable(was), Comparable(now));
    var fields := Differing(b, a);
    Change(key, fields, map name | name in fields :: if name in b then b[name] else Null, now)
  }

  function Summarised(key: string, e: Element): Summary {
    Summary(key, map name | name in e && name in {"text", "desc", "rid", "klass"} && e[name] != Null :: e[name])
  }

  /** Elements by key; of several with one key the last is found. */
  function Keyed(es: seq<Element>): map<string, Element> {
    if es == [] then map[] else Keyed(es[..|es| - 1])[KeyOfLast(es) := es[|es| - 1]]
  }

  /** Elements of `after` whose key is not in `known`. */
  function AddedTo(known: map<string, Element>, after: seq<Element>): seq<Element> {
    if after == [] then []
    else
      var rest := AddedTo(known, after[..|after| - 1]);
      if KeyOfLast(after) in known then rest else rest + [after[|after| - 1]]
  }

  function ChangedFrom(known: map<string, Element>, after: seq<Element>): seq<Change> {
    if after == [] then []
    else
      var rest, key, now := ChangedFrom(known, after[..|after| - 1]), KeyOfLast(after), after[|after| - 1];
      if key in known && Comparable(known[key]) != Comparable(now) then rest + [Changed(key, known[key], now)] else rest
  }

  function RemovedFrom(before: seq<Element>, kept: set<string>): seq<Summary> {
    if before == [] then []
    else
      var rest := RemovedFrom(before[..|before| - 1], kept);
      if KeyOfLast(before) in kept then rest else rest + [Summarised(KeyOfLast(before), before[|before| - 1])]
  }

  function KeySet(keys: seq<string>): set<string> {
    set x | x in keys
  }

  function DiffOf(before: seq<Element>, after: seq<Element>): Diff {
    var known := Keyed(before);
    Diff(AddedTo(known, after), RemovedFrom(before, KeySet(Keys(after))), ChangedFrom(known, after))
  }

  method ComputeDiff(before: seq<Element>, after: seq<Element>) returns (d: Diff)
    ensures d == DiffOf(before, after)
  {
    hide Base, Numbered, Comparable, Changed, Summarised, KeyOfLast;
    var beforeKeys := ElementKeys(before);
    var known := Zip(beforeKeys, before);
    var afterKeys := ElementKeys(after);
    var added: seq<Element>, changed: seq<Change> := [], [];
    for i := 0 to |after|
      invariant added == AddedTo(known, after[..i]) && changed == ChangedFrom(known, after[..i])
    {
      KeyAt(after, i);
      assert after[..i + 1][..i] == after[..i] && after[..i + 1][i] == after[i];
      var key, element := afterKeys[i], after[i];
      if key !in known {
        added := added + [element];
      } else if Comparable(known[key]) != Comparable(element) {
        changed := changed + [Changed(key, known[key], element)];
      }
    }
    assert after[..|after|] == after;
    var kept := KeySet(afterKeys);
    var removed: seq<Summary> := [];
    for i := 0 to |before|
      invariant removed == RemovedFrom(before[..i], kept)
    {
      KeyAt(before, i);
      assert before[..i + 1][..i] == before[..i] && before[..i + 1][i] == before[i];
      if beforeKeys[i] !in kept {
        removed := removed + [Summarised(beforeKeys[i], before[i])];
      }
    }
    assert before[..|before|] == before;
    d := Diff(added, removed, changed);
  }

  /** Collecting keys and elements into a map. */
  method Zip(keys: seq<string>, es: seq<Element>) returns (known: map<string, Element>)
    requires keys == Keys(es)
    ensures known == Keyed(es)
  {
    hide KeyOfLast;
    known := map[];
    for i := 0 to |es|
      invariant known == Keyed(es[..i])
    {
      KeyAt(es, i);
      assert es[..i + 1][..i] == es[..i] && es[..i + 1][i] == es[i];
      known := known[keys[i] := es[i]];
    }
    assert es[..|es|] == es;
  }

  lemma {:induction false} KeyAt(es: seq<Element>, i: nat)
    requires i < |es|
    ensures Keys(es)[i] == KeyOfLast(es[..i + 1])
  {
    hide KeyOfLast;
    if i == |es| - 1 {
      assert es[..i + 1] == es;
    } else {
      KeyAt(es[..|es| - 1], i);
      assert es[..|es| - 1][..i + 1] == es[..i + 1];
    }
  }
}
