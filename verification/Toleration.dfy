/**
 The toleration flag: `key=value:effect` fields in one CSV record, read into tolerations and written
 back.
 */
module Toleration {
  import opened Options
  import opened Csv

  datatype Toleration = Toleration(key: string, operator: string, value: string, effect: string)

  const EXISTS := "Exists"
  const EQUAL := "Equal"

  /** The position of the first occurrence of a separator, or the length. */
  function IndexOf(s: string, sep: char): (i: nat)
    ensures i <= |s|
    ensures i < |s| ==> s[i] == sep
    ensures sep !in s[..i]
  {
    if s == "" || s[0] == sep then 0 else 1 + IndexOf(s[1..], sep)
  }

  function Render(t: Toleration): string {
    t.key + "=" + (t.value + ":" + t.effect)
  }

  function Parse(field: string): Option<Toleration> {
    var k := IndexOf(field, '=');
    if k == |field| then None
    else
      var rest := field[k + 1..];
      var v := IndexOf(rest, ':');
      if v == |rest| then None
      else Some(Toleration(field[..k], if v == 0 then EXISTS else EQUAL, rest[..v], rest[v + 1..]))
  }

  function ParseAll(fields: seq<string>): Option<seq<Toleration>> {
    if fields == [] then Some([])
    else
      var first, rest := Parse(fields[0]), ParseAll(fields[1..]);
      if first.None? || rest.None? then None else Some([first.value] + rest.value)
  }

  function RenderAll(ts: seq<Toleration>): seq<string> {
    if ts == [] then [] else [Render(ts[0])] + RenderAll(ts[1..])
  }

  function Written(ts: seq<Toleration>): string {
    WriteRecord(RenderAll(ts))
  }

  /** The fields of the flag value; an empty value has none. */
  function ReadAsCSV(val: string): Option<seq<string>> {
    if val == "" then Some([]) else ReadRecord(val)
  }

  function ReadBack(val: string): Option<seq<Toleration>> {
    var fields := ReadAsCSV(val);
    if fields.None? then None else ParseAll(fields.value)
  }

  // ---------------------------------------------------------------- the flag

  function After(res: seq<Toleration>, rest: Option<seq<Toleration>>): Option<seq<Toleration>> {
    if rest.None? then None else Some(res + rest.value)
  }

  lemma AfterNext(fields: seq<string>, i: nat, res: seq<Toleration>)
    requires i < |fields|
    ensures After(res, ParseAll(fields[i..]))
            == if Parse(fields[i]).None? then None else After(res + [Parse(fields[i]).value], ParseAll(fields[i + 1..]))
  {
    assert fields[i..][1..] == fields[i + 1..];
    var rest := ParseAll(fields[i + 1..]);
    if Parse(fields[i]).Some? && rest.Some? {
      assert res + ([Parse(fields[i]).value] + rest.value) == res + [Parse(fields[i]).value] + rest.value;
    }
  }

  lemma AfterNothing(all: Option<seq<Toleration>>, res: seq<Toleration>)
    ensures After([], all) == all
    ensures After(res, ParseAll([])) == Some(res)
  {
    if all.Some? {
      assert [] + all.value == all.value;
    }
    assert res + [] == res;
  }

  /** The loop over the fields of the record; the first malformed one ends it. */
  method ParseFields(fields: seq<string>) returns (result: Option<seq<Toleration>>)
    ensures result == ParseAll(fields)
  {
    var res: seq<Toleration> := [];
    ghost var all := ParseAll(fields);
    assert fields[0..] == fields && fields[|fields|..] == [];
    AfterNothing(all, res);
    for i := 0 to |fields|
      invariant all == After(res, ParseAll(fields[i..]))
    {
      AfterNext(fields, i, res);
      var parsed := Parse(fields[i]);
      if parsed.None? {
        return None;
      }
      res := res + [parsed.value];
    }
    AfterNothing(all, res);
    return Some(res);
  }

  method ReadTolerationsAsCSV(val: string) returns (result: Option<seq<Toleration>>)
    ensures result == ReadBack(val)
  {
    var record := ReadAsCSV(val);
    if record.None? {
      return None;
    }
    result := ParseFields(record.value);
  }

  method WriteTolerationsAsCSV(tolerations: seq<Toleration>) returns (val: string)
    ensures val == Written(tolerations)
  {
    var fields: seq<string> := [];
    assert tolerations[0..] == tolerations;
    for i := 0 to |tolerations|
      invariant RenderAll(tolerations) == fields + RenderAll(tolerations[i..])
    {
      assert tolerations[i..][1..] == tolerations[i + 1..];
      fields := fields + [Render(tolerations[i])];
    }
    assert RenderAll(tolerations) == fields;
    val := WriteRecord(fields);
  }

  /** The flag variable: the first value set replaces the default, later ones are appended. */
  class TolerationsVar {
    var changed: bool
    var value: seq<Toleration>

    constructor (default: seq<Toleration>)
      ensures !changed && value == default
    {
      changed, value := false, default;
    }

    method Set(val: string) returns (ok: bool)
      modifies this
      ensures ok == ReadBack(val).Some?
      ensures !ok ==> changed == old(changed) && value == old(value)
      ensures ok ==> changed && value == (if old(changed) then old(value) else []) + ReadBack(val).value
    {
      var read := ReadTolerationsAsCSV(val);
      if read.None? {
        return false;
      }
      if changed {
        value := value + read.value;
      } else {
        value := read.value;
      }
      changed := true;
      return true;
    }

    method String() returns (s: string)
      ensures s == "[" + Written(value) + "]"
    {
      var val := WriteTolerationsAsCSV(value);
      s := "[" + val + "]";
    }
  }

  // ---------------------------------------------------------------- the round trip

  /** Somewhere a carriage return is followed by a newline. */
  predicate HasCrLf(s: string) {
    exists i :: 0 <= i < |s| - 1 && s[i] == '\r' && s[i + 1] == '\n'
  }

  /** The tolerations the flag can hold without loss. */
  predicate Faithful(t: Toleration) {
    && '=' !in t.key
    && ':' !in t.value
    && t.operator == (if t.value == "" then "Exists" else "Equal")
    && !HasCrLf(Render(t))
  }

  lemma {:induction false} CollapseKeeps(s: string)
    ensures |Collapse(s)| <= |s|
    ensures Collapse(s) == s <==> !HasCrLf(s)
  {
    if s != "" {
      CollapseKeeps(s[1..]);
      if AtCrLf(s) {
        assert HasCrLf(s);
      } else {
        if HasCrLf(s[1..]) {
          var i :| 0 <= i < |s[1..]| - 1 && s[1..][i] == '\r' && s[1..][i + 1] == '\n';
          assert s[i + 1] == '\r' && s[i + 1 + 1] == '\n';
        }
        if HasCrLf(s) {
          var i :| 0 <= i < |s| - 1 && s[i] == '\r' && s[i + 1] == '\n';
          assert s[1..][i - 1] == '\r' && s[1..][i - 1 + 1] == '\n';
        }
      }
    }
  }

  lemma {:induction false} IndexOfAt(s: string, sep: char, rest: string)
    requires sep !in s
    ensures IndexOf(s + [sep] + rest, sep) == |s|
  {
    if s != "" {
      assert (s + [sep] + rest)[1..] == s[1..] + [sep] + rest;
      IndexOfAt(s[1..], sep, rest);
    }
  }

  /** A parsed field prints as itself, and what it says is clean. */
  lemma ParsedRenders(field: string)
    ensures Parse(field).Some? ==>
              var t := Parse(field).value;
              && Render(t) == field && '=' !in t.key && ':' !in t.value
              && t.operator == (if t.value == "" then "Exists" else "Equal")
  {
    if Parse(field).Some? {
      var t := Parse(field).value;
      var rest := field[|t.key| + 1..];
      assert field == t.key + "=" + rest;
      assert rest == t.value + ":" + t.effect;
    }
  }

  lemma RenderedParses(t: Toleration)
    requires '=' !in t.key && ':' !in t.value && t.operator == (if t.value == "" then EXISTS else EQUAL)
    ensures Parse(Render(t)) == Some(t)
  {
    IndexOfAt(t.key, '=', t.value + ":" + t.effect);
    IndexOfAt(t.value, ':', t.effect);
    var rest := t.value + ":" + t.effect;
    assert Render(t) == t.key + ['='] + rest;
    assert Render(t)[..|t.key|] == t.key && Render(t)[|t.key| + 1..] == rest;
    assert rest == t.value + [':'] + t.effect;
    assert rest[..|t.value|] == t.value && rest[|t.value| + 1..] == t.effect;
  }

  /** A field is malformed exactly when it has no '=', or no ':' after the first one. */
  lemma MalformedIff(field: string)
    ensures Parse(field).None? <==> '=' !in field || ':' !in field[IndexOf(field, '=')..]
  {
    var k := IndexOf(field, '=');
    if k < |field| {
      assert field[k..] == [field[k]] + field[k + 1..];
      var v := IndexOf(field[k + 1..], ':');
      assert field[k + 1..][..v] + field[k + 1..][v..] == field[k + 1..];
    } else {
      assert field[..k] == field;
    }
  }

  /** A flag value is rejected exactly when one of its fields is malformed. */
  lemma {:induction false} RejectedIff(fields: seq<string>)
    ensures ParseAll(fields).None? <==> exists i :: 0 <= i < |fields| && Parse(fields[i]).None?
  {
    if fields != [] {
      var rest := fields[1..];
      RejectedIff(rest);
      if i :| 0 <= i < |rest| && Parse(rest[i]).None? {
        assert fields[i + 1] == rest[i];
      } else if Parse(fields[0]).Some? {
        forall i | 0 <= i < |fields|
          ensures Parse(fields[i]).Some?
        {
          assert i > 0 ==> fields[i] == rest[i - 1] && Parse(rest[i - 1]).Some?;
        }
      }
    }
  }

  /** Otherwise each field gives its toleration. */
  lemma {:induction false} EachField(fields: seq<string>, i: nat)
    requires ParseAll(fields).Some? && i < |fields|
    ensures |ParseAll(fields).value| == |fields| && Parse(fields[i]) == Some(ParseAll(fields).value[i])
  {
    if |fields| > 1 {
      EachField(fields[1..], if i > 0 then i - 1 else 0);
    }
  }

  /** One toleration survives exactly when it is faithful. */
  lemma OneRoundTrip(t: Toleration)
    ensures Parse(Collapse(Render(t))) == Some(t) <==> Faithful(t)
  {
    CollapseKeeps(Render(t));
    ParsedRenders(Collapse(Render(t)));
    if Faithful(t) {
      RenderedParses(t);
    }
  }

  lemma {:induction false} AllRoundTrip(ts: seq<Toleration>)
    ensures ParseAll(Collapsed(RenderAll(ts))) == Some(ts) <==> forall i :: 0 <= i < |ts| ==> Faithful(ts[i])
  {
    if ts != [] {
      AllRoundTrip(ts[1..]);
      OneRoundTrip(ts[0]);
      assert ts == [ts[0]] + ts[1..];
      assert Collapsed(RenderAll(ts))[1..] == Collapsed(RenderAll(ts[1..]));
      assert (forall i :: 0 <= i < |ts| ==> Faithful(ts[i])) <==>
          Faithful(ts[0]) && forall i :: 0 <= i < |ts[1..]| ==> Faithful(ts[1..][i]);
    }
  }

  lemma {:induction false} WrittenIsNotEmpty(fields: seq<string>)
    requires fields != [] && fields[0] != ""
    ensures WriteRecord(fields) != ""
  {
  }

  /**
   Reading what was written gives the same tolerations back exactly when none has '=' in its key, ':' in
   its value, a CRLF anywhere in its text, or an operator that its value does not imply.
   */
  lemma WriteThenRead(ts: seq<Toleration>)
    ensures ReadBack(Written(ts)) == Some(ts) <==> forall i :: 0 <= i < |ts| ==> Faithful(ts[i])
  {
    AllRoundTrip(ts);
    if ts != [] {
      RecordRoundTrip(RenderAll(ts));
      WrittenIsNotEmpty(RenderAll(ts));
    } else {
      assert Collapsed(RenderAll(ts)) == [];
    }
  }
}
