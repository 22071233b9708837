/** The duplicate-key scanner: an explicit stack of open objects and arrays over a JSON token stream
    (internal/agentmessaging/types.go). JSON text as in RFC 8259; names in an object are its section 4. */
module JsonKeys {
  import opened Prelude

  /** A JSON value; an object is its members in the order written, repeated names included. */
  datatype Json =
    | Object(members: seq<Member>)
    | Array(items: seq<Json>)
    | Text(text: string)
    | Scalar(literal: string)

  datatype Member = Member(name: string, value: Json)

  datatype Token =
    | ObjectOpen | ObjectClose | ArrayOpen | ArrayClose
    | TextToken(text: string) | ScalarToken(literal: string)

  /** The token stream the decoder delivers for a value. */
  function Tokens(v: Json): seq<Token>
    decreases v, 1
  {
    match v
    case Object(members) => [ObjectOpen] + MemberTokens(members) + [ObjectClose]
    case Array(items) => [ArrayOpen] + ItemTokens(items) + [ArrayClose]
    case Text(t) => [TextToken(t)]
    case Scalar(l) => [ScalarToken(l)]
  }

  function MemberTokens(members: seq<Member>): seq<Token>
    decreases members, 0
  {
    if members == [] then []
    else [TextToken(members[0].name)] + Tokens(members[0].value) + MemberTokens(members[1..])
  }

  function ItemTokens(items: seq<Json>): seq<Token>
    decreases items, 0
  {
    if items == [] then [] else Tokens(items[0]) + ItemTokens(items[1..])
  }

  // ---------------------------------------------------------------------------------------------
  // The reference: no object, at any depth, repeats a name

  ghost predicate NoRepeats(v: Json)
    decreases v, 1
  {
    match v
    case Object(members) => MembersDistinct(members, {})
    case Array(items) => forall i | 0 <= i < |items| :: NoRepeats(items[i])
    case Text(_) => true
    case Scalar(_) => true
  }

  ghost predicate MembersDistinct(members: seq<Member>, seen: set<string>)
    decreases members, 0
  {
    members == [] ||
    (members[0].name !in seen && NoRepeats(members[0].value) && MembersDistinct(members[1..], seen + {members[0].name}))
  }

  // ---------------------------------------------------------------------------------------------
  // The scanner

  datatype Frame = Frame(isObject: bool, expectKey: bool, seen: set<string>)

  datatype Outcome = Clean | Duplicate | Malformed

  /** One token: the new stack, or why the scan stops. */
  function Step(stack: seq<Frame>, t: Token): Result<seq<Frame>, Outcome> {
    match t
    case ObjectOpen => Ok(stack + [Frame(true, true, {})])
    case ArrayOpen => Ok(stack + [Frame(false, false, {})])
    case ObjectClose => Close(stack)
    case ArrayClose => Close(stack)
    case TextToken(s) =>
      if stack == [] || !Top(stack).isObject then Ok(stack)
      else if !Top(stack).expectKey then Ok(Expecting(stack, true))
      else if s in Top(stack).seen then Err(Duplicate)
      else Ok(stack[..|stack| - 1] + [Frame(true, false, Top(stack).seen + {s})])
    case ScalarToken(_) =>
      if stack == [] || !Top(stack).isObject then Ok(stack)
      else if !Top(stack).expectKey then Ok(Expecting(stack, true))
      else Err(Malformed)
  }

  function Top(stack: seq<Frame>): Frame
    requires stack != []
  {
    stack[|stack| - 1]
  }

  function Expecting(stack: seq<Frame>, key: bool): seq<Frame>
    requires stack != []
  {
    stack[..|stack| - 1] + [Top(stack).(expectKey := key)]
  }

  /** Popping a frame hands the enclosing object its next name. */
  function Close(stack: seq<Frame>): Result<seq<Frame>, Outcome> {
    if stack == [] then Err(Malformed)
    else
      var below := stack[..|stack| - 1];
      if below != [] && Top(below).isObject then Ok(Expecting(below, true)) else Ok(below)
  }

  function Scan(stack: seq<Frame>, tokens: seq<Token>): Outcome
    decreases |tokens|
  {
    if tokens == [] then (if stack == [] then Clean else Malformed)
    else
      var next := Step(stack, tokens[0]);
      if next.Err? then next.error else Scan(next.value, tokens[1..])
  }

  lemma {:induction false} ScanFrom(stack: seq<Frame>, tokens: seq<Token>, i: nat)
    requires i < |tokens|
    ensures Scan(stack, tokens[i..]) ==
            var next := Step(stack, tokens[i]); if next.Err? then next.error else Scan(next.value, tokens[i + 1..])
  {
    assert tokens[i..][1..] == tokens[i + 1..];
  }

  /** The loop over decoder tokens, with its stack of frames. */
  method RejectDuplicateKeys(tokens: seq<Token>) returns (r: Outcome)
    ensures r == Scan([], tokens)
    ensures forall v: Json | Tokens(v) == tokens :: r == if NoRepeats(v) then Clean else Duplicate
  {
    forall v: Json | Tokens(v) == tokens ensures Scan([], tokens) == if NoRepeats(v) then Clean else Duplicate {
      ScannerExact(v);
    }
    var stack: seq<Frame> := [];
    var i := 0;
    assert tokens[0..] == tokens;
    while i < |tokens|
      invariant 0 <= i <= |tokens|
      invariant Scan([], tokens) == Scan(stack, tokens[i..])
    {
      var tok := tokens[i];
      ScanFrom(stack, tokens, i);
      i := i + 1;
      if tok.ObjectOpen? {
        stack := stack + [Frame(true, true, {})];
      } else if tok.ArrayOpen? {
        stack := stack + [Frame(false, false, {})];
      } else if tok.ObjectClose? || tok.ArrayClose? {
        if |stack| == 0 { return Malformed; }
        stack := stack[..|stack| - 1];
        if |stack| > 0 && Top(stack).isObject {
          stack := stack[..|stack| - 1] + [Top(stack).(expectKey := true)];
        }
      } else if |stack| > 0 && Top(stack).isObject {
        var frame := Top(stack);
        if frame.expectKey {
          if !tok.TextToken? { return Malformed; }
          if tok.text in frame.seen { return Duplicate; }
          stack := stack[..|stack| - 1] + [Frame(true, false, frame.seen + {tok.text})];
        } else {
          stack := stack[..|stack| - 1] + [frame.(expectKey := true)];
        }
      }
    }
    r := if |stack| != 0 then Malformed else Clean;
  }

  // ---------------------------------------------------------------------------------------------
  // Scanner and reference agree

  /** Where a value may start: not where an object expects a name. */
  predicate Ready(stack: seq<Frame>) {
    stack == [] || !Top(stack).isObject || !Top(stack).expectKey
  }

  /** The stack a complete value leaves behind. */
  function After(stack: seq<Frame>): seq<Frame> {
    if stack != [] && Top(stack).isObject then Expecting(stack, true) else stack
  }

  lemma ScanCons(stack: seq<Frame>, t: Token, rest: seq<Token>)
    ensures Scan(stack, [t] + rest) ==
            var next := Step(stack, t); if next.Err? then next.error else Scan(next.value, rest)
  {
    assert ([t] + rest)[1..] == rest;
  }

  lemma {:induction false} ScanValue(stack: seq<Frame>, v: Json, rest: seq<Token>)
    requires Ready(stack)
    ensures Scan(stack, Tokens(v) + rest) == if NoRepeats(v) then Scan(After(stack), rest) else Duplicate
    decreases v, 1
  {
    match v
    case Text(t) =>
      ScanCons(stack, TextToken(t), rest);
    case Scalar(l) =>
      ScanCons(stack, ScalarToken(l), rest);
    case Object(members) =>
      var inner, tail := MemberTokens(members), [ObjectClose] + rest;
      assert Tokens(v) + rest == [ObjectOpen] + (inner + tail);
      ScanCons(stack, ObjectOpen, inner + tail);
      ScanMembers(stack, {}, members, rest);
    case Array(items) =>
      var inner, tail := ItemTokens(items), [ArrayClose] + rest;
      assert Tokens(v) + rest == [ArrayOpen] + (inner + tail);
      ScanCons(stack, ArrayOpen, inner + tail);
      ScanItems(stack, items, rest);
  }

  lemma {:induction false} ScanMembers(below: seq<Frame>, seen: set<string>, members: seq<Member>, rest: seq<Token>)
    requires Ready(below)
    ensures Scan(below + [Frame(true, true, seen)], MemberTokens(members) + ([ObjectClose] + rest))
            == if MembersDistinct(members, seen) then Scan(After(below), rest) else Duplicate
    decreases members, 0
  {
    var stack := below + [Frame(true, true, seen)];
    assert stack[..|stack| - 1] == below;
    var tail := [ObjectClose] + rest;
    if members == [] {
      assert MemberTokens(members) + tail == tail;
      ScanCons(stack, ObjectClose, rest);
    } else {
      var Member(key, value) := members[0];
      var more := MemberTokens(members[1..]) + tail;
      assert MemberTokens(members) + tail == [TextToken(key)] + (Tokens(value) + more);
      ScanCons(stack, TextToken(key), Tokens(value) + more);
      if key !in seen {
        var keyed := below + [Frame(true, false, seen + {key})];
        assert keyed[..|keyed| - 1] == below;
        ScanValue(keyed, value, more);
        assert After(keyed) == below + [Frame(true, true, seen + {key})];
        ScanMembers(below, seen + {key}, members[1..], rest);
      }
    }
  }

  lemma {:induction false} ScanItems(below: seq<Frame>, items: seq<Json>, rest: seq<Token>)
    requires Ready(below)
    ensures Scan(below + [Frame(false, false, {})], ItemTokens(items) + ([ArrayClose] + rest))
            == if (forall i | 0 <= i < |items| :: NoRepeats(items[i])) then Scan(After(below), rest) else Duplicate
    decreases items, 0
  {
    var stack := below + [Frame(false, false, {})];
    assert stack[..|stack| - 1] == below;
    var tail := [ArrayClose] + rest;
    if items == [] {
      assert ItemTokens(items) + tail == tail;
      ScanCons(stack, ArrayClose, rest);
    } else {
      var more := ItemTokens(items[1..]) + tail;
      assert ItemTokens(items) + tail == Tokens(items[0]) + more;
      ScanValue(stack, items[0], more);
      ScanItems(below, items[1..], rest);
      assert (forall i | 0 <= i < |items| :: NoRepeats(items[i])) <==>
             NoRepeats(items[0]) && forall i | 0 <= i < |items[1..]| :: NoRepeats(items[1..][i]) by {
        assert forall i | 0 < i < |items| :: items[i] == items[1..][i - 1];
      }
    }
  }

  /** For every JSON value, the scanner finds its token stream clean exactly when no object at any
      depth repeats a name, and calls it a duplicate otherwise: never malformed. */
  lemma ScannerExact(v: Json)
    ensures Scan([], Tokens(v)) == if NoRepeats(v) then Clean else Duplicate
  {
    ScanValue([], v, []);
    assert Tokens(v) + [] == Tokens(v);
  }

  // ---------------------------------------------------------------------------------------------
  // Why it matters: decoders that keep different occurrences agree

  datatype Decoded =
    | Table(fields: map<string, Decoded>)
    | List(elements: seq<Decoded>)
    | Leaf(value: Json)

  /** A decoder that, of a repeated name, keeps the first occurrence or the last. */
  function Decode(v: Json, keepLast: bool): Decoded
    decreases v, 1
  {
    match v
    case Object(members) => Table(DecodeMembers(members, keepLast))
    case Array(items) => List(DecodeItems(items, keepLast))
    case Text(_) => Leaf(v)
    case Scalar(_) => Leaf(v)
  }

  function DecodeMembers(members: seq<Member>, keepLast: bool): map<string, Decoded>
    decreases members, 0
  {
    if members == [] then map[]
    else
      var here := map[members[0].name := Decode(members[0].value, keepLast)];
      var rest := DecodeMembers(members[1..], keepLast);
      if keepLast then here + rest else rest + here
  }

  function DecodeItems(items: seq<Json>, keepLast: bool): seq<Decoded>
    decreases items, 0
  {
    if items == [] then [] else [Decode(items[0], keepLast)] + DecodeItems(items[1..], keepLast)
  }

  lemma {:induction false} NamesFresh(members: seq<Member>, seen: set<string>, keepLast: bool)
    requires MembersDistinct(members, seen)
    ensures DecodeMembers(members, keepLast).Keys !! seen
  {
    if members != [] { NamesFresh(members[1..], seen + {members[0].name}, keepLast); }
  }

  /** On a value without repeats, first-name-wins and last-name-wins decoding agree. */
  lemma {:induction false} DecodersAgree(v: Json)
    requires NoRepeats(v)
    ensures Decode(v, true) == Decode(v, false)
    decreases v, 1
  {
    match v
    case Object(members) => MembersAgree(members, {});
    case Array(items) => ItemsAgree(items);
    case Text(_) =>
    case Scalar(_) =>
  }

  lemma {:induction false} MembersAgree(members: seq<Member>, seen: set<string>)
    requires MembersDistinct(members, seen)
    ensures DecodeMembers(members, true) == DecodeMembers(members, false)
    decreases members, 0
  {
    if members != [] {
      DecodersAgree(members[0].value);
      MembersAgree(members[1..], seen + {members[0].name});
      NamesFresh(members[1..], seen + {members[0].name}, true);
      var here := map[members[0].name := Decode(members[0].value, true)];
      var rest := DecodeMembers(members[1..], true);
      assert here + rest == rest + here;
    }
  }

  lemma {:induction false} ItemsAgree(items: seq<Json>)
    requires forall i | 0 <= i < |items| :: NoRepeats(items[i])
    ensures DecodeItems(items, true) == DecodeItems(items, false)
    decreases items, 0
  {
    if items != [] {
      DecodersAgree(items[0]);
      ItemsAgree(items[1..]);
    }
  }

  /** Every payload the scanner accepts decodes the same either way; a rejected one need not. */
  lemma AcceptedPayloadIsUnambiguous(v: Json)
    ensures Scan([], Tokens(v)) == Clean ==> Decode(v, true) == Decode(v, false)
  {
    ScannerExact(v);
    if NoRepeats(v) { DecodersAgree(v); }
  }

  lemma RepeatedNameIsAmbiguous(name: string, a: string, b: string)
    requires a != b
    ensures var v := Object([Member(name, Text(a)), Member(name, Text(b))]);
            Scan([], Tokens(v)) == Duplicate && Decode(v, true) != Decode(v, false)
  {
    var v := Object([Member(name, Text(a)), Member(name, Text(b))]);
    var tail := [Member(name, Text(b))];
    ScannerExact(v);
    assert v.members[1..] == tail && tail[1..] == [];
    assert !MembersDistinct(tail, {} + {name});
    assert DecodeMembers(tail, true) == map[name := Leaf(Text(b))];
    assert DecodeMembers(tail, false) == map[name := Leaf(Text(b))];
    assert DecodeMembers(v.members, true)[name] == Leaf(Text(b));
    assert DecodeMembers(v.members, false)[name] == Leaf(Text(a));
  }

  // ---------------------------------------------------------------------------------------------
  // Streams that are no value

  function Depth(tokens: seq<Token>): int {
    if tokens == [] then 0
    else Depth(tokens[1..]) + (if tokens[0].ObjectOpen? || tokens[0].ArrayOpen? then 1
                               else if tokens[0].ObjectClose? || tokens[0].ArrayClose? then -1 else 0)
  }

  /** A stream is found clean only if what it opens it closes; a closing token with nothing open, or a stream that ends
      with something open, is malformed unless a repeated name came first. */
  lemma {:induction false} CleanIsBalanced(stack: seq<Frame>, tokens: seq<Token>)
    requires Scan(stack, tokens) == Clean
    ensures |stack| + Depth(tokens) == 0
    decreases |tokens|
  {
    if tokens != [] { CleanIsBalanced(Step(stack, tokens[0]).value, tokens[1..]); }
  }

  /** In an object a name must be text. */
  lemma NameMustBeText(below: seq<Frame>, seen: set<string>, literal: string, rest: seq<Token>)
    ensures Scan(below + [Frame(true, true, seen)], [ScalarToken(literal)] + rest) == Malformed
  {
    ScanCons(below + [Frame(true, true, seen)], ScalarToken(literal), rest);
  }
}
