/**
 The scan that rejects JSON text with repeated object names or trailing tokens, over the tokens a decoder yields.
 Names are as in section 4 of RFC 8259.
 */
module StrictJson {
  import opened Common

  /** Scalar stands for a number, true, false or null; Malformed for text the decoder cannot read as a token. */
  datatype Token = OpenObject | CloseObject | OpenArray | CloseArray | Text(text: string) | Scalar | Malformed

  datatype Failure = Syntax | NameNotText | Duplicate(name: string) | Delimiter | Trailing

  datatype Read = Got(token: Token) | EndOfInput | Invalid

  datatype Unit = Unit

  // ---------------------------------------------------------------------------------------------- specification

  /** Whether a container still has an element to read: there is input, and it is not a closing delimiter. */
  predicate More(tokens: seq<Token>) {
    |tokens| > 0 && tokens[0] != CloseObject && tokens[0] != CloseArray
  }

  function End(tokens: seq<Token>, close: Token): (r: Result<seq<Token>, Failure>)
    ensures r.Ok? ==> |tokens| > 0 && r.value == tokens[1..]
  {
    if tokens == [] || tokens[0].Malformed? then Err(Syntax)
    else if tokens[0] != close then Err(Delimiter)
    else Ok(tokens[1..])
  }

  /** The tokens left after one value. */
  function Value(tokens: seq<Token>): (r: Result<seq<Token>, Failure>)
    ensures r.Ok? ==> |r.value| < |tokens|
    decreases |tokens|, 0
  {
    if tokens == [] then Err(Syntax)
    else match tokens[0]
      case Malformed => Err(Syntax)
      case Text(_) => Ok(tokens[1..])
      case Scalar => Ok(tokens[1..])
      case OpenObject => Members(tokens[1..], {})
      case OpenArray => Items(tokens[1..])
      case _ => Err(Delimiter)
  }

  /** The tokens left after the remaining members of an object whose earlier names are `seen`. */
  function Members(tokens: seq<Token>, seen: set<string>): (r: Result<seq<Token>, Failure>)
    ensures r.Ok? ==> |r.value| < |tokens|
    decreases |tokens|, 1
  {
    if !More(tokens) then End(tokens, CloseObject)
    else match tokens[0]
      case Malformed => Err(Syntax)
      case Text(name) =>
        if name in seen then Err(Duplicate(name))
        else
          var rest :- Value(tokens[1..]);
          Members(rest, seen + {name})
      case _ => Err(NameNotText)
  }

  function Items(tokens: seq<Token>): (r: Result<seq<Token>, Failure>)
    ensures r.Ok? ==> |r.value| < |tokens|
    decreases |tokens|, 1
  {
    if !More(tokens) then End(tokens, CloseArray)
    else
      var rest :- Value(tokens);
      Items(rest)
  }

  // ------------------------------------------------------------------------------------------------- the decoder

  class Decoder {
    const tokens: seq<Token>
    var at: nat

    constructor (tokens: seq<Token>)
      ensures Valid() && Rest() == tokens
    {
      this.tokens := tokens;
      at := 0;
    }

    ghost predicate Valid()
      reads this
    {
      at <= |tokens|
    }

    function Rest(): seq<Token>
      requires Valid()
      reads this
    {
      tokens[at..]
    }

    method Next() returns (read: Read)
      requires Valid()
      modifies this
      ensures Valid()
      ensures old(Rest()) == [] ==> read == EndOfInput && at == old(at)
      ensures old(Rest()) != [] && old(Rest())[0].Malformed? ==> read == Invalid && at == old(at)
      ensures old(Rest()) != [] && !old(Rest())[0].Malformed? ==> read == Got(old(Rest())[0]) && Rest() == old(Rest())[1..]
    {
      if at == |tokens| {
        return EndOfInput;
      }
      if tokens[at].Malformed? {
        return Invalid;
      }
      read := Got(tokens[at]);
      at := at + 1;
    }

    method HasMore() returns (more: bool)
      requires Valid()
      ensures more == More(Rest())
    {
      more := at < |tokens| && tokens[at] != CloseObject && tokens[at] != CloseArray;
    }

    /** Consumes one value: what is left, or the failure, is that of Value. */
    method ScanValue() returns (r: Result<Unit, Failure>)
      requires Valid()
      modifies this
      ensures Valid()
      ensures r.Ok? <==> Value(old(Rest())).Ok?
      ensures r.Ok? ==> Rest() == Value(old(Rest())).value
      ensures r.Err? ==> r.error == Value(old(Rest())).error
      decreases |Rest()|
    {
      ghost var all := Rest();
      var read := Next();
      if !read.Got? {
        return Err(Syntax);
      }
      match read.token
      case OpenObject =>
        var seen: set<string> := {};
        var more := HasMore();
        while more
          invariant Valid() && |Rest()| < |all|
          invariant more == More(Rest())
          invariant Value(all) == Members(Rest(), seen)
          decreases |Rest()|
        {
          var name := Next();
          if !name.Got? {
            return Err(Syntax);
          }
          if !name.token.Text? {
            return Err(NameNotText);
          }
          if name.token.text in seen {
            return Err(Duplicate(name.token.text));
          }
          seen := seen + {name.token.text};
          var value := ScanValue();
          if value.Err? {
            return value;
          }
          more := HasMore();
        }
        r := Finish(CloseObject);
      case OpenArray =>
        var more := HasMore();
        while more
          invariant Valid() && |Rest()| < |all|
          invariant more == More(Rest())
          invariant Value(all) == Items(Rest())
          decreases |Rest()|
        {
          var value := ScanValue();
          if value.Err? {
            return value;
          }
          more := HasMore();
        }
        r := Finish(CloseArray);
      case CloseObject => return Err(Delimiter);
      case CloseArray => return Err(Delimiter);
      case Text(_) => return Ok(Unit);
      case Scalar => return Ok(Unit);
    }

    method Finish(close: Token) returns (r: Result<Unit, Failure>)
      requires Valid() && !close.Malformed?
      modifies this
      ensures Valid()
      ensures r.Ok? <==> End(old(Rest()), close).Ok?
      ensures r.Ok? ==> Rest() == old(Rest())[1..]
      ensures r.Err? ==> r.error == End(old(Rest()), close).error
    {
      var end := Next();
      if !end.Got? {
        return Err(Syntax);
      }
      if end.token != close {
        return Err(Delimiter);
      }
      r := Ok(Unit);
    }
  }

  /** The whole check: one value, then the end of the input. */
  function Document(tokens: seq<Token>): (r: Result<Unit, Failure>) {
    var rest :- Value(tokens);
    if rest == [] then Ok(Unit)
    else if rest[0].Malformed? then Err(Syntax)
    else Err(Trailing)
  }

  method RejectDuplicateKeysAndTrailing(tokens: seq<Token>) returns (r: Result<Unit, Failure>)
    ensures r == Document(tokens)
  {
    var decoder := new Decoder(tokens);
    r := decoder.ScanValue();
    if r.Err? {
      return;
    }
    var read := decoder.Next();
    match read
    case EndOfInput => r := Ok(Unit);
    case Got(_) => r := Err(Trailing);
    case Invalid => r := Err(Syntax);
  }

  // -------------------------------------------------------------------------------------------------- JSON values

  datatype Json = Atom | String(text: string) | Array(items: seq<Json>) | Object(members: seq<Member>)

  datatype Member = Member(name: string, value: Json)

  function Encode(v: Json): (tokens: seq<Token>)
    ensures More(tokens)
  {
    match v
    case Atom => [Scalar]
    case String(text) => [Text(text)]
    case Array(items) => [OpenArray] + EncodeItems(items)
    case Object(members) => [OpenObject] + EncodeMembers(members)
  }

  function EncodeItems(items: seq<Json>): seq<Token> {
    if items == [] then [CloseArray] else Encode(items[0]) + EncodeItems(items[1..])
  }

  function EncodeMembers(members: seq<Member>): seq<Token> {
    if members == [] then [CloseObject]
    else [Text(members[0].name)] + Encode(members[0].value) + EncodeMembers(members[1..])
  }

  /** No object at any depth repeats a name. */
  ghost predicate NoRepeats(v: Json) {
    match v
    case Atom => true
    case String(_) => true
    case Array(items) => forall item <- items :: NoRepeats(item)
    case Object(members) =>
      && (forall i, j | 0 <= i < j < |members| :: members[i].name != members[j].name)
      && (forall member <- members :: NoRepeats(member.value))
  }

  ghost predicate NoRepeatsAmong(members: seq<Member>, seen: set<string>) {
    && (forall i | 0 <= i < |members| :: members[i].name !in seen)
    && (forall i, j | 0 <= i < j < |members| :: members[i].name != members[j].name)
    && (forall i | 0 <= i < |members| :: NoRepeats(members[i].value))
  }

  /** The scan consumed exactly the value's tokens, or stopped at a repeated name because there is one. */
  ghost predicate Outcome(good: bool, r: Result<seq<Token>, Failure>, rest: seq<Token>) {
    if good then r == Ok(rest) else r.Err? && r.error.Duplicate?
  }

  /** On the tokens of any value, whatever follows, the scan accepts exactly the values without repeated names. */
  lemma {:induction false} ScanOfEncoded(v: Json, rest: seq<Token>)
    ensures Outcome(NoRepeats(v), Value(Encode(v) + rest), rest)
    decreases v
  {
    match v
    case Atom => assert ([Scalar] + rest)[1..] == rest;
    case String(text) => assert ([Text(text)] + rest)[1..] == rest;
    case Array(items) =>
      ScanOfItems(items, rest);
      assert (Encode(v) + rest)[1..] == EncodeItems(items) + rest;
      assert NoRepeats(v) <==> forall i | 0 <= i < |items| :: NoRepeats(items[i]);
    case Object(members) =>
      ScanOfMembers(members, {}, rest);
      assert (Encode(v) + rest)[1..] == EncodeMembers(members) + rest;
      assert NoRepeats(v) <==> NoRepeatsAmong(members, {});
  }

  lemma {:induction false} ScanOfItems(items: seq<Json>, rest: seq<Token>)
    ensures Outcome(forall i | 0 <= i < |items| :: NoRepeats(items[i]), Items(EncodeItems(items) + rest), rest)
    decreases items
  {
    hide NoRepeats;
    var tokens := EncodeItems(items) + rest;
    if items == [] {
      assert tokens[1..] == rest;
    } else {
      var after := EncodeItems(items[1..]) + rest;
      ScanOfEncoded(items[0], after);
      ScanOfItems(items[1..], rest);
      assert tokens == Encode(items[0]) + after;
      assert (forall i | 0 <= i < |items| :: NoRepeats(items[i])) <==>
             NoRepeats(items[0]) && (forall i | 0 <= i < |items[1..]| :: NoRepeats(items[1..][i]));
    }
  }

  lemma {:induction false} ScanOfMembers(members: seq<Member>, seen: set<string>, rest: seq<Token>)
    ensures Outcome(NoRepeatsAmong(members, seen), Members(EncodeMembers(members) + rest, seen), rest)
    decreases members
  {
    var tokens := EncodeMembers(members) + rest;
    if members == [] {
      assert tokens[1..] == rest;
    } else {
      var first, tail := members[0], members[1..];
      var after := EncodeMembers(tail) + rest;
      assert tokens[1..] == Encode(first.value) + after;
      ScanOfEncoded(first.value, after);
      ScanOfMembers(tail, seen + {first.name}, rest);
      SplitMembers(members, seen);
    }
  }

  lemma SplitMembers(members: seq<Member>, seen: set<string>)
    requires |members| > 0
    ensures NoRepeatsAmong(members, seen) <==>
            && members[0].name !in seen && NoRepeats(members[0].value)
            && NoRepeatsAmong(members[1..], seen + {members[0].name})
  {
    var tail := members[1..];
    assert forall i | 0 < i < |members| :: members[i] == tail[i - 1];
    assert forall i | 0 <= i < |tail| :: tail[i] == members[i + 1];
  }

  /** Whatever the scan accepts is the tokens of a value without repeated names, followed by what it left. */
  lemma {:induction false} AcceptedValue(tokens: seq<Token>) returns (v: Json)
    requires Value(tokens).Ok?
    ensures tokens == Encode(v) + Value(tokens).value && NoRepeats(v)
    decreases |tokens|, 0
  {
    match tokens[0]
    case Text(text) =>
      v := String(text);
    case Scalar =>
      v := Atom;
    case OpenObject =>
      var members := AcceptedMembers(tokens[1..], {});
      v := Object(members);
      assert tokens == [OpenObject] + tokens[1..];
    case OpenArray =>
      var items := AcceptedItems(tokens[1..]);
      v := Array(items);
      assert tokens == [OpenArray] + tokens[1..];
  }

  lemma {:induction false} AcceptedItems(tokens: seq<Token>) returns (items: seq<Json>)
    requires Items(tokens).Ok?
    ensures tokens == EncodeItems(items) + Items(tokens).value
    ensures forall item <- items :: NoRepeats(item)
    decreases |tokens|, 1
  {
    if !More(tokens) {
      items := [];
    } else {
      var first := AcceptedValue(tokens);
      var tail := AcceptedItems(Value(tokens).value);
      items := [first] + tail;
      assert items[1..] == tail;
    }
  }

  lemma Joined<T>(all: seq<T>, first: seq<T>, second: seq<T>, rest: seq<T>)
    requires |all| > 0 && all[1..] == first + (second + rest)
    ensures all == [all[0]] + first + second + rest
  {
  }

  lemma {:induction false} AcceptedMembers(tokens: seq<Token>, seen: set<string>) returns (members: seq<Member>)
    requires Members(tokens, seen).Ok?
    ensures tokens == EncodeMembers(members) + Members(tokens, seen).value
    ensures NoRepeatsAmong(members, seen)
    decreases |tokens|, 1
  {
    if !More(tokens) {
      members := [];
    } else {
      hide NoRepeats, NoRepeatsAmong;
      var name := tokens[0].text;
      var first := AcceptedValue(tokens[1..]);
      var tail := AcceptedMembers(Value(tokens[1..]).value, seen + {name});
      members := [Member(name, first)] + tail;
      assert members[1..] == tail;
      SplitMembers(members, seen);
      assert EncodeMembers(members) == [Text(name)] + Encode(first) + EncodeMembers(tail);
      Joined(tokens, Encode(first), EncodeMembers(tail), Members(tokens, seen).value);
    }
  }

  /** The check passes exactly the token streams of one JSON value that repeats no name at any depth. */
  lemma DocumentAccepts(tokens: seq<Token>)
    ensures Document(tokens).Ok? <==> exists v :: NoRepeats(v) && tokens == Encode(v)
  {
    if Document(tokens).Ok? {
      var v := AcceptedValue(tokens);
      assert tokens == Encode(v);
    }
    if v :| NoRepeats(v) && tokens == Encode(v) {
      ScanOfEncoded(v, []);
      assert tokens + [] == tokens;
    }
  }

  /** On well-formed JSON text the only reason to refuse is a repeated name; with a second value it is the trailer. */
  lemma WellFormedDocument(v: Json, rest: seq<Token>)
    ensures !NoRepeats(v) ==> Document(Encode(v) + rest).Err? && Document(Encode(v) + rest).error.Duplicate?
    ensures NoRepeats(v) && rest != [] && !rest[0].Malformed? ==> Document(Encode(v) + rest) == Err(Trailing)
  {
    ScanOfEncoded(v, rest);
  }
}
