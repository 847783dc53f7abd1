/**
 * The history-element module of the comparison tooling: the two field
 * schemes it asks the indexers for, and the reshaping of a SubQuery node
 * into the SubSquid shape (`processSubqueryNode`). An array under `data`
 * becomes the node's `calls`, with each call's extrinsic arguments renamed
 * from snake_case to camelCase and id-like arguments parsed as integers.
 */
module HistoryElements {
  import opened Wrappers
  import opened JsMaps
  import opened Text
  import opened QueryBuilders
  import opened JsValues

  // ---------------------------------------------------------------------
  // The schemes
  // ---------------------------------------------------------------------

  /** The fields asked of SubQuery. */
  const SubqueryScheme: NodeScheme := [
    Field("id"), Field("blockHeight"), Field("blockHash"), Field("address"), Field("method"),
    Field("module"), Field("networkFee"), Field("timestamp"), Field("data")
  ]

  /** The sub-fields of a call. */
  const CallFields: seq<string> := ["id", "method", "module", "data"]

  /** The fields asked of SubSquid: the same, then the calls with their own fields. */
  const SubsquidScheme: NodeScheme := SubqueryScheme + [Nested("calls", CallFields)]

  /** A nested entry after plain fields renders as one more line after them. */
  lemma NestedAfterFlat(scheme: NodeScheme, name: string, fields: seq<string>)
    requires |scheme| > 0 && Flat(scheme)
    ensures SubsquidNodeSchemeToString(scheme + [Nested(name, fields)])
            == SubqueryNodeSchemeToString(scheme) + "\n" + (name + " { " + Join(fields, "\n") + " }")
  {
    var whole := scheme + [Nested(name, fields)];
    var lines := seq(|whole|, i requires 0 <= i < |whole| =>
                       match whole[i]
                       case Field(name) => name
                       case Nested(name, fields) => name + " { " + SubsquidNodeSchemeToString(FieldsScheme(fields)) + " }");
    assert SubsquidNodeSchemeToString(FieldsScheme(fields)) == SubqueryNodeSchemeToString(FieldsScheme(fields));
    var line := name + " { " + Join(fields, "\n") + " }";
    forall i | 0 <= i < |scheme| ensures lines[i] == Names(scheme)[i] {
      assert whole[i] == scheme[i];
    }
    assert lines[|scheme|] == line;
    assert lines == Names(scheme) + [line];
    JoinAppend(Names(scheme), line, "\n");
  }

  /** The SubQuery scheme has plain fields only. */
  lemma SubquerySchemeFlat()
    ensures |SubqueryScheme| == 9 && Flat(SubqueryScheme)
  {
  }

  /** The SubSquid query asks for everything the SubQuery one does, then one more line for the calls. */
  lemma SchemesRendering()
    ensures SubsquidNodeSchemeToString(SubsquidScheme)
            == SubqueryNodeSchemeToString(SubqueryScheme) + "\n" + ("calls" + " { " + Join(CallFields, "\n") + " }")
  {
    SubquerySchemeFlat();
    NestedAfterFlat(SubqueryScheme, "calls", CallFields);
  }

  // ---------------------------------------------------------------------
  // toCamelCase
  // ---------------------------------------------------------------------

  predicate IsLower(c: char) {
    'a' <= c <= 'z'
  }

  /** `letter.toUpperCase()` on a lower-case ASCII letter. */
  function ToUpper(c: char): (r: char)
    requires IsLower(c)
    ensures 'A' <= r <= 'Z'
  {
    (c as int - 32) as char
  }

  /**
   * `str.replace(/_([a-z])/g, (match, letter) => letter.toUpperCase())`:
   * matches are found left to right without overlapping, so an `_` that
   * does not precede a lower-case letter stays.
   */
  function ToCamelCase(s: string): (r: string)
    ensures |r| <= |s|
  {
    if |s| == 0 then ""
    else if |s| >= 2 && s[0] == '_' && IsLower(s[1]) then [ToUpper(s[1])] + ToCamelCase(s[2..])
    else [s[0]] + ToCamelCase(s[1..])
  }

  /** No `_` is followed by a lower-case letter. */
  predicate NoSnakePair(s: string) {
    forall i :: 0 <= i < |s| - 1 ==> !(s[i] == '_' && IsLower(s[i + 1]))
  }

  /** A key without `_` keeps its name. */
  lemma {:induction false} CamelWithoutUnderscore(s: string)
    requires '_' !in s
    ensures ToCamelCase(s) == s
  {
    if |s| > 0 {
      assert '_' !in s[1..];
      CamelWithoutUnderscore(s[1..]);
      assert [s[0]] + s[1..] == s;
    }
  }

  /** The renaming of a string that starts with `_` does not start with a lower-case letter. */
  lemma CamelHeadAfterUnderscore(s: string)
    requires |s| > 0 && s[0] == '_'
    ensures |ToCamelCase(s)| > 0 && !IsLower(ToCamelCase(s)[0])
  {
  }

  /** After renaming, no `_` is followed by a lower-case letter. */
  lemma {:induction false} CamelLeavesNoSnakePair(s: string)
    ensures NoSnakePair(ToCamelCase(s))
  {
    if |s| == 0 {
    } else if |s| >= 2 && s[0] == '_' && IsLower(s[1]) {
      CamelLeavesNoSnakePair(s[2..]);
      var r := ToCamelCase(s);
      var rest := ToCamelCase(s[2..]);
      forall i | 0 <= i < |r| - 1 ensures !(r[i] == '_' && IsLower(r[i + 1])) {
        if i > 0 {
          assert r[i] == rest[i - 1] && r[i + 1] == rest[i];
        }
      }
    } else {
      CamelLeavesNoSnakePair(s[1..]);
      var r := ToCamelCase(s);
      var rest := ToCamelCase(s[1..]);
      forall i | 0 <= i < |r| - 1 ensures !(r[i] == '_' && IsLower(r[i + 1])) {
        if i > 0 {
          assert r[i] == rest[i - 1] && r[i + 1] == rest[i];
        } else if s[0] == '_' {
          if s[1] == '_' {
            CamelHeadAfterUnderscore(s[1..]);
          } else {
            assert rest[0] == s[1];
          }
        }
      }
    }
  }

  /** A name with no `_` before a lower-case letter is already camelCase. */
  lemma {:induction false} CamelFixedPoint(s: string)
    requires NoSnakePair(s)
    ensures ToCamelCase(s) == s
  {
    if |s| > 0 {
      assert NoSnakePair(s[1..]) by {
        forall i | 0 <= i < |s[1..]| - 1 ensures !(s[1..][i] == '_' && IsLower(s[1..][i + 1])) {
          assert s[1..][i] == s[i + 1] && s[1..][i + 1] == s[i + 2];
        }
      }
      CamelFixedPoint(s[1..]);
      assert [s[0]] + s[1..] == s;
    }
  }

  /** Renaming twice is renaming once. */
  lemma CamelIdempotent(s: string)
    ensures ToCamelCase(ToCamelCase(s)) == ToCamelCase(s)
  {
    CamelLeavesNoSnakePair(s);
    CamelFixedPoint(ToCamelCase(s));
  }

  /** Renaming splits at a point that no match straddles. */
  lemma {:induction false} CamelAppend(p: string, q: string)
    requires |q| > 0 && !IsLower(q[0])
    ensures ToCamelCase(p + q) == ToCamelCase(p) + ToCamelCase(q)
    decreases |p|, 1
  {
    if |p| == 0 {
      assert p + q == q;
    } else if |p| >= 2 && p[0] == '_' && IsLower(p[1]) {
      CamelAppendPair(p, q);
    } else {
      CamelAppendKept(p, q);
    }
  }

  lemma {:induction false} CamelAppendPair(p: string, q: string)
    requires |q| > 0 && !IsLower(q[0])
    requires |p| >= 2 && p[0] == '_' && IsLower(p[1])
    ensures ToCamelCase(p + q) == ToCamelCase(p) + ToCamelCase(q)
    decreases |p|, 0
  {
    var s := p + q;
    assert s[0] == p[0] && s[1] == p[1] && s[2..] == p[2..] + q;
    CamelAppend(p[2..], q);
    assert ([ToUpper(p[1])] + ToCamelCase(p[2..])) + ToCamelCase(q) == [ToUpper(p[1])] + (ToCamelCase(p[2..]) + ToCamelCase(q));
  }

  /** A first character that starts no match is kept. */
  lemma CamelKept(s: string)
    requires |s| >= 1 && !(|s| >= 2 && s[0] == '_' && IsLower(s[1]))
    ensures ToCamelCase(s) == [s[0]] + ToCamelCase(s[1..])
  {
  }

  lemma KeptHead(p: string, q: string)
    requires |q| > 0 && !IsLower(q[0])
    requires |p| >= 1 && !(|p| >= 2 && p[0] == '_' && IsLower(p[1]))
    ensures var s := p + q; s[0] == p[0] && !(|s| >= 2 && s[0] == '_' && IsLower(s[1]))
  {
    var s := p + q;
    if |p| == 1 {
      assert s[1] == q[0];
    } else {
      assert s[1] == p[1];
    }
  }

  lemma {:induction false} CamelAppendKept(p: string, q: string)
    requires |q| > 0 && !IsLower(q[0])
    requires |p| >= 1 && !(|p| >= 2 && p[0] == '_' && IsLower(p[1]))
    ensures ToCamelCase(p + q) == ToCamelCase(p) + ToCamelCase(q)
    decreases |p|, 0
  {
    var s := p + q;
    var a, b := ToCamelCase(p[1..]), ToCamelCase(q);
    assert ToCamelCase(s[1..]) == a + b by {
      assert s[1..] == p[1..] + q;
      CamelAppend(p[1..], q);
    }
    assert ToCamelCase(s) == [p[0]] + ToCamelCase(s[1..]) by {
      KeptHead(p, q);
      CamelKept(s);
    }
    assert ToCamelCase(p) == [p[0]] + a by {
      CamelKept(p);
    }
    assert ([p[0]] + a) + b == [p[0]] + (a + b);
  }

  // ---------------------------------------------------------------------
  // transformValue
  // ---------------------------------------------------------------------

  /** `key === 'id' || key.endsWith('_id')`: an id key ends in `id`, after `_` unless it is `id` itself. */
  predicate IsIdKey(key: string)
    ensures IsIdKey(key) ==> |key| >= 2 && key[|key| - 2] == 'i' && key[|key| - 1] == 'd'
    ensures IsIdKey(key) && key != "id" ==> |key| >= 3 && key[|key| - 3] == '_'
  {
    key == "id" || (|key| >= 3 && key[|key| - 3..] == "_id")
  }

  /** `transformValue`: an id-like key has its value parsed as an integer; any other value is kept. */
  function TransformValue(key: string, value: Value): (r: Value)
    ensures IsIdKey(key) ==> r.Num? || r.NaN?
    ensures !IsIdKey(key) ==> r == value
  {
    if IsIdKey(key) then ParseInt(ToJsString(value)) else value
  }

  /** An id given as a number or as its decimal string comes out as that number. */
  lemma IdValuesParsed(key: string, n: int)
    requires IsIdKey(key)
    ensures TransformValue(key, Num(n)) == Num(n)
    ensures TransformValue(key, Value.Str(IntToString(n))) == Num(n)
  {
    assert ToJsString(Num(n)) == IntToString(n);
    assert ToJsString(Value.Str(IntToString(n))) == IntToString(n);
    ParseIntOfString(n);
  }

  /** An id that is `null`, `undefined`, a boolean, `NaN` or an object comes out as `NaN`. */
  lemma MissingIdsAreNaN(key: string, v: Value)
    requires IsIdKey(key)
    requires v.Undefined? || v.Null? || v.Bool? || v.NaN? || v.Obj?
    ensures TransformValue(key, v) == NaN
  {
    ParseIntWithoutDigits(ToJsString(v));
  }

  /**
   * The parsing is decided on the original key: a `..._id` key is renamed
   * to a key that is not id-like, so deciding after renaming would keep
   * the value.
   */
  lemma IdDecidedBeforeRenaming(p: string, v: Value)
    ensures IsIdKey(p + "_id")
    ensures ToCamelCase(p + "_id") == ToCamelCase(p) + "Id"
    ensures !IsIdKey(ToCamelCase(p + "_id"))
  {
    var k := p + "_id";
    assert k[|k| - 3..] == "_id";
    CamelAppend(p, "_id");
    assert "_id"[2..] == "d";
    assert ToCamelCase("_id") == "Id";
    var r := ToCamelCase(k);
    assert r[|r| - 2] == 'I';
  }

  // ---------------------------------------------------------------------
  // transformArgs
  // ---------------------------------------------------------------------

  /**
   * The object `transformArgs` builds from the entries: each entry in turn
   * is assigned under its camelCase key, so a later entry whose key renames
   * to the same name overwrites an earlier one and keeps its position.
   */
  function TransformEntries(entries: seq<(string, Value)>): (r: JsMap<string, Value>)
    ensures r.Valid()
  {
    if |entries| == 0 then Empty()
    else
      var (key, value) := entries[|entries| - 1];
      TransformEntries(entries[..|entries| - 1]).Set(ToCamelCase(key), TransformValue(key, value))
  }

  /** `transformArgs(input)`: fills a fresh object from `Object.entries(input)`. */
  method TransformArgs(input: Value) returns (output: JsMap<string, Value>)
    ensures output == TransformEntries(OwnEntries(input))
  {
    var entries := OwnEntries(input);
    output := Empty();
    var i := 0;
    while i < |entries|
      invariant 0 <= i <= |entries|
      invariant output == TransformEntries(entries[..i])
    {
      TransformEntriesStep(entries, i);
      output := output.Set(ToCamelCase(entries[i].0), TransformValue(entries[i].0, entries[i].1));
      i := i + 1;
    }
    assert entries[..i] == entries;
  }

  /** One more entry is one more assignment. */
  lemma TransformEntriesStep(entries: seq<(string, Value)>, i: nat)
    requires i < |entries|
    ensures TransformEntries(entries[..i + 1])
            == TransformEntries(entries[..i]).Set(ToCamelCase(entries[i].0), TransformValue(entries[i].0, entries[i].1))
  {
    assert entries[..i + 1][..i] == entries[..i];
  }

  /** The output keys are exactly the renamed input keys. */
  lemma {:induction false} TransformedKeys(entries: seq<(string, Value)>, k: string)
    ensures k in TransformEntries(entries).m <==> exists i :: 0 <= i < |entries| && ToCamelCase(entries[i].0) == k
  {
    if |entries| > 0 {
      var init := entries[..|entries| - 1];
      TransformedKeys(init, k);
      if exists i :: 0 <= i < |entries| && ToCamelCase(entries[i].0) == k {
        var i :| 0 <= i < |entries| && ToCamelCase(entries[i].0) == k;
        if i < |entries| - 1 {
          assert init[i] == entries[i];
        }
      }
      if exists i :: 0 <= i < |init| && ToCamelCase(init[i].0) == k {
        var i :| 0 <= i < |init| && ToCamelCase(init[i].0) == k;
        assert entries[i] == init[i];
      }
    }
  }

  /** Under each output key sits the transformed value of the last entry renamed to it. */
  lemma {:induction false} TransformedLastWins(entries: seq<(string, Value)>, i: nat)
    requires i < |entries|
    requires forall j :: i < j < |entries| ==> ToCamelCase(entries[j].0) != ToCamelCase(entries[i].0)
    ensures ToCamelCase(entries[i].0) in TransformEntries(entries).m
    ensures TransformEntries(entries).m[ToCamelCase(entries[i].0)] == TransformValue(entries[i].0, entries[i].1)
  {
    TransformedKeys(entries, ToCamelCase(entries[i].0));
    if i < |entries| - 1 {
      var init := entries[..|entries| - 1];
      assert init[i] == entries[i];
      forall j | i < j < |init| ensures ToCamelCase(init[j].0) != ToCamelCase(init[i].0) {
        assert init[j] == entries[j];
      }
      TransformedLastWins(init, i);
    }
  }

  /** The renamed keys of the entries, in order. */
  function RenamedKeys(entries: seq<(string, Value)>): (r: seq<string>)
    ensures |r| == |entries| && forall i :: 0 <= i < |r| ==> r[i] == ToCamelCase(entries[i].0)
  {
    if |entries| == 0 then [] else RenamedKeys(entries[..|entries| - 1]) + [ToCamelCase(entries[|entries| - 1].0)]
  }

  /** Renamed keys that do not collide keep the input order. */
  lemma {:induction false} TransformedOrder(entries: seq<(string, Value)>)
    requires forall i, j :: 0 <= i < j < |entries| ==> ToCamelCase(entries[i].0) != ToCamelCase(entries[j].0)
    ensures TransformEntries(entries).keys == RenamedKeys(entries)
  {
    if |entries| > 0 {
      var init := entries[..|entries| - 1];
      var last := ToCamelCase(entries[|entries| - 1].0);
      assert forall i, j :: 0 <= i < j < |init| ==> ToCamelCase(init[i].0) != ToCamelCase(init[j].0) by {
        forall i, j | 0 <= i < j < |init| ensures ToCamelCase(init[i].0) != ToCamelCase(init[j].0) {
          assert init[i] == entries[i] && init[j] == entries[j];
        }
      }
      TransformedOrder(init);
      TransformedKeys(init, last);
    }
  }

  // ---------------------------------------------------------------------
  // processSubqueryNode
  // ---------------------------------------------------------------------

  /** The error a property read on `null` or `undefined` throws. */
  datatype TypeError = CannotReadProperty(property: string)

  /**
   * One element of `node.data.map(...)`: a call whose `data.args` is truthy
   * gets `{ ...call, data: transformArgs(call.data.args) }`, any other call
   * is returned as it is; reading `data` of `null` or `undefined` throws.
   * Values other than objects have no `data` or `args` property.
   */
  function ProcessCall(call: Value): (r: Result<Value, TypeError>)
    ensures r.Err? <==> call.Undefined? || call.Null?
    ensures r.Ok? && !call.Obj? ==> r.value == call
    ensures r.Ok? && call.Obj? ==>
              && r.value.Obj?
              && r.value.fields.keys == call.fields.keys
              && (call.fields.Valid() ==> r.value.fields.Valid())
              && (forall k :: k != "data" ==> Property(r.value.fields, k) == Property(call.fields, k))
  {
    if call.Undefined? || call.Null? then Err(CannotReadProperty("data"))
    else if !call.Obj? then Ok(call)
    else
      var data := Property(call.fields, "data");
      var args := if data.Obj? then Property(data.fields, "args") else Undefined;
      if Truthy(data) && Truthy(args) then
        Ok(Obj(call.fields.Set("data", Obj(TransformEntries(OwnEntries(args))))))
      else Ok(call)
  }

  /** `items.map(processCall)`: the first element that throws aborts the map. */
  function ProcessCalls(items: seq<Value>): (r: Result<seq<Value>, TypeError>)
    ensures r.Err? ==> r.error == CannotReadProperty("data")
    ensures r.Ok? ==> |r.value| == |items|
    decreases |items|
  {
    if |items| == 0 then Ok([])
    else
      match ProcessCall(items[0])
      case Err(e) => Err(e)
      case Ok(c) =>
        match ProcessCalls(items[1..])
        case Err(e) => Err(e)
        case Ok(cs) => Ok([c] + cs)
  }

  /**
   * `processSubqueryNode`: an array under `data` becomes `calls` (mapped)
   * and `data` becomes `null`; any other `data` is kept and `calls` is
   * empty. The rest of the node is copied; `data` and `calls` keep their
   * places, or are appended in that order.
   */
  function ProcessSubqueryNode(node: JsMap<string, Value>): (r: Result<JsMap<string, Value>, TypeError>)
    ensures !Property(node, "data").Arr? ==>
              && r.Ok?
              && Property(r.value, "data") == Property(node, "data")
              && Property(r.value, "calls") == Arr([])
    ensures r.Ok? ==>
              && (node.Valid() ==> r.value.Valid())
              && (forall k :: k != "data" && k != "calls" ==> Property(r.value, k) == Property(node, k))
              && |r.value.keys| >= |node.keys| && r.value.keys[..|node.keys|] == node.keys
              && ("data" in node.m && "calls" in node.m ==> r.value.keys == node.keys)
  {
    var data := Property(node, "data");
    if data.Arr? then
      match ProcessCalls(data.items)
      case Err(e) => Err(e)
      case Ok(calls) => Ok(node.Set("data", Value.Null).Set("calls", Arr(calls)))
    else Ok(node.Set("data", data).Set("calls", Arr([])))
  }

  /** A call with truthy `data.args` has those arguments transformed under `data`; any other is unchanged. */
  lemma ProcessCallArgs(call: Value)
    requires call.Obj?
    ensures var data := Property(call.fields, "data");
            var args := if data.Obj? then Property(data.fields, "args") else Undefined;
            && (Truthy(args) ==> ProcessCall(call) == Ok(Obj(call.fields.Set("data", Obj(TransformEntries(OwnEntries(args)))))))
            && (!Truthy(args) ==> ProcessCall(call) == Ok(call))
  {
  }

  /** The map throws exactly when some element is `null` or `undefined`; otherwise it maps element-wise. */
  lemma {:induction false} ProcessCallsEffect(items: seq<Value>)
    ensures ProcessCalls(items).Err? <==> exists i :: 0 <= i < |items| && (items[i].Undefined? || items[i].Null?)
    ensures ProcessCalls(items).Ok? ==>
              && |ProcessCalls(items).value| == |items|
              && forall i :: 0 <= i < |items| ==> ProcessCalls(items).value[i] == ProcessCall(items[i]).value
  {
    if |items| > 0 {
      ProcessCallsEffect(items[1..]);
      if exists i :: 0 <= i < |items| && (items[i].Undefined? || items[i].Null?) {
        var i :| 0 <= i < |items| && (items[i].Undefined? || items[i].Null?);
        if i > 0 {
          assert items[1..][i - 1] == items[i];
        }
      }
      if exists i :: 0 <= i < |items[1..]| && (items[1..][i].Undefined? || items[1..][i].Null?) {
        var i :| 0 <= i < |items[1..]| && (items[1..][i].Undefined? || items[1..][i].Null?);
        assert items[i + 1] == items[1..][i];
      }
      if ProcessCalls(items).Ok? {
        var cs := ProcessCalls(items).value;
        forall i | 0 <= i < |items| ensures cs[i] == ProcessCall(items[i]).value {
          if i > 0 {
            assert items[1..][i - 1] == items[i];
          }
        }
      }
    }
  }

  /**
   * A node whose `data` is an array: `data` becomes `null` and `calls` the
   * processed elements, unless one of them is `null` or `undefined`.
   */
  lemma ProcessArrayData(node: JsMap<string, Value>, items: seq<Value>)
    requires Property(node, "data") == Arr(items)
    ensures ProcessSubqueryNode(node).Err? <==> exists i :: 0 <= i < |items| && (items[i].Undefined? || items[i].Null?)
    ensures ProcessSubqueryNode(node).Ok? ==>
              var r := ProcessSubqueryNode(node).value;
              && Property(r, "data") == Value.Null
              && Property(r, "calls").Arr?
              && |Property(r, "calls").items| == |items|
              && forall i :: 0 <= i < |items| ==> Property(r, "calls").items[i] == ProcessCall(items[i]).value
  {
    ProcessCallsEffect(items);
  }
}
