/** Two scanners that reject repeated member names (section 4 of RFC 8259): one with an explicit stack, one recursive. */
module DuplicateMembers {
  import opened Wrappers

  /******* JSON values and their token streams *******/

  datatype Json = Object(members: Members) | Array(items: Items) | Text(text: string) | Scalar
  datatype Members = NoMembers | Member(name: string, value: Json, rest: Members)
  datatype Items = NoItems | Item(value: Json, rest: Items)

  datatype Token = OpenObject | CloseObject | OpenArray | CloseArray | String(text: string) | Literal

  function Tokens(v: Json): seq<Token> {
    match v
    case Object(members) => [OpenObject] + (MemberTokens(members) + [CloseObject])
    case Array(items) => [OpenArray] + (ItemTokens(items) + [CloseArray])
    case Text(text) => [String(text)]
    case Scalar => [Literal]
  }

  function MemberTokens(ms: Members): seq<Token> {
    match ms
    case NoMembers => []
    case Member(name, value, rest) => [String(name)] + (Tokens(value) + MemberTokens(rest))
  }

  function ItemTokens(vs: Items): seq<Token> {
    match vs
    case NoItems => []
    case Item(value, rest) => Tokens(value) + ItemTokens(rest)
  }

  /******* What must be rejected *******/

  function Names(ms: Members): set<string> {
    match ms
    case NoMembers => {}
    case Member(name, _, rest) => {name} + Names(rest)
  }

  /** Some object, at some depth, repeats a member name. */
  predicate Repeats(v: Json) {
    match v
    case Object(members) => MembersRepeat(members)
    case Array(items) => ItemsRepeat(items)
    case _ => false
  }

  predicate MembersRepeat(ms: Members) {
    match ms
    case NoMembers => false
    case Member(name, value, rest) => name in Names(rest) || Repeats(value) || MembersRepeat(rest)
  }

  predicate ItemsRepeat(vs: Items) {
    match vs
    case NoItems => false
    case Item(value, rest) => Repeats(value) || ItemsRepeat(rest)
  }

  /******* The scanner with an explicit stack *******/

  datatype Frame = Frame(isObject: bool, expecting: bool, members: set<string>)

  /** `Underflow` is a closing delimiter with nothing open, which the scanner does not guard against. */
  datatype Scan = Going(stack: seq<Frame>) | Rejected | Underflow

  function Top(stack: seq<Frame>): Frame
    requires stack != []
  {
    stack[|stack| - 1]
  }

  function Pop(stack: seq<Frame>): seq<Frame>
    requires stack != []
  {
    stack[..|stack| - 1]
  }

  /** A value just ended: an object around it expects a name next. */
  function Consumed(stack: seq<Frame>): seq<Frame> {
    if stack != [] && Top(stack).isObject then Pop(stack) + [Top(stack).(expecting := true)] else stack
  }

  predicate ExpectsName(stack: seq<Frame>) {
    stack != [] && Top(stack).isObject && Top(stack).expecting
  }

  function Step(stack: seq<Frame>, token: Token): Scan {
    match token
    case OpenObject => Going(stack + [Frame(true, true, {})])
    case OpenArray => Going(stack + [Frame(false, false, {})])
    case CloseObject => if stack == [] then Underflow else Going(Consumed(Pop(stack)))
    case CloseArray => if stack == [] then Underflow else Going(Consumed(Pop(stack)))
    case String(text) =>
      if ExpectsName(stack) then
        if text in Top(stack).members then Rejected
        else Going(Pop(stack) + [Frame(true, false, Top(stack).members + {text})])
      else Going(Consumed(stack))
    case Literal => Going(Consumed(stack))
  }

  function Run(scan: Scan, tokens: seq<Token>): Scan
    decreases |tokens|
  {
    if tokens == [] || !scan.Going? then scan
    else Run(Step(scan.stack, tokens[0]), tokens[1..])
  }

  lemma {:induction false} RunConcat(scan: Scan, a: seq<Token>, b: seq<Token>)
    ensures Run(scan, a + b) == Run(Run(scan, a), b)
    decreases |a|
  {
    if a == [] {
      assert a + b == b;
    } else if scan.Going? {
      assert (a + b)[1..] == a[1..] + b;
      RunConcat(Step(scan.stack, a[0]), a[1..], b);
    }
  }

  lemma RunOne(stack: seq<Frame>, token: Token)
    ensures Run(Going(stack), [token]) == Step(stack, token)
  {
    assert [token][1..] == [];
  }

  /** Where a value may stand: at the top level, in an array, or after a member name. */
  predicate ValuePosition(stack: seq<Frame>) {
    !ExpectsName(stack)
  }

  /** Scanning a value rejects exactly its repeated names and otherwise leaves the stack as after any value. */
  lemma {:induction false} RunValue(stack: seq<Frame>, v: Json)
    requires ValuePosition(stack)
    ensures Run(Going(stack), Tokens(v)) == if Repeats(v) then Rejected else Going(Consumed(stack))
    decreases v
  {
    match v
    case Object(members) =>
      var inner := stack + [Frame(true, true, {})];
      RunConcat(Going(stack), [OpenObject], MemberTokens(members) + [CloseObject]);
      RunOne(stack, OpenObject);
      RunConcat(Going(inner), MemberTokens(members), [CloseObject]);
      RunMembers(stack, {}, members);
      if !Repeats(v) {
        RunOne(stack + [Frame(true, true, {} + Names(members))], CloseObject);
      }
    case Array(items) =>
      var inner := stack + [Frame(false, false, {})];
      RunConcat(Going(stack), [OpenArray], ItemTokens(items) + [CloseArray]);
      RunOne(stack, OpenArray);
      RunConcat(Going(inner), ItemTokens(items), [CloseArray]);
      RunItems(inner, items);
      if !Repeats(v) {
        RunOne(inner, CloseArray);
      }
    case Text(text) => RunOne(stack, String(text));
    case Scalar => RunOne(stack, Literal);
  }

  lemma {:induction false} RunMembers(stack: seq<Frame>, seen: set<string>, ms: Members)
    ensures var inner := stack + [Frame(true, true, seen)];
            Run(Going(inner), MemberTokens(ms)) ==
            if MembersRepeat(ms) || seen * Names(ms) != {} then Rejected
            else Going(stack + [Frame(true, true, seen + Names(ms))])
    decreases ms
  {
    var inner := stack + [Frame(true, true, seen)];
    match ms
    case NoMembers =>
      assert seen + {} == seen;
    case Member(name, value, rest) =>
      RunConcat(Going(inner), [String(name)], Tokens(value) + MemberTokens(rest));
      RunOne(inner, String(name));
      assert Pop(inner) == stack;
      if name !in seen {
        var named := stack + [Frame(true, false, seen + {name})];
        RunConcat(Going(named), Tokens(value), MemberTokens(rest));
        RunValue(named, value);
        if !Repeats(value) {
          assert Consumed(named) == stack + [Frame(true, true, seen + {name})];
          RunMembers(stack, seen + {name}, rest);
          assert seen + {name} + Names(rest) == seen + Names(ms);
          assert (seen + {name}) * Names(rest) == {} <==> seen * Names(rest) == {} && name !in Names(rest);
          assert seen * Names(ms) == {} <==> seen * Names(rest) == {};
        }
      } else {
        assert name in seen * Names(ms);
      }
  }

  lemma {:induction false} RunItems(stack: seq<Frame>, vs: Items)
    requires stack != [] && !Top(stack).isObject
    ensures Run(Going(stack), ItemTokens(vs)) == if ItemsRepeat(vs) then Rejected else Going(stack)
    decreases vs
  {
    match vs
    case NoItems =>
    case Item(value, rest) =>
      RunConcat(Going(stack), Tokens(value), ItemTokens(rest));
      RunValue(stack, value);
      if !Repeats(value) {
        RunItems(stack, rest);
      }
  }

  /** Over any sequence of values read one after another, the stack never underflows and is empty between values. */
  lemma {:induction false} RunValues(values: Items)
    ensures Run(Going([]), ItemTokens(values)) == if ItemsRepeat(values) then Rejected else Going([])
  {
    match values
    case NoItems =>
    case Item(value, rest) =>
      RunConcat(Going([]), Tokens(value), ItemTokens(rest));
      RunValue([], value);
      if !Repeats(value) {
        RunValues(rest);
      }
  }

  /** The scanner as it runs: one loop over the tokens, one stack changed in place. */
  method RejectDuplicates(tokens: seq<Token>) returns (result: Scan)
    ensures result == Run(Going([]), tokens)
  {
    var stack: seq<Frame> := [];
    for i := 0 to |tokens|
      invariant Run(Going(stack), tokens[i..]) == Run(Going([]), tokens)
    {
      assert tokens[i..][0] == tokens[i] && tokens[i..][1..] == tokens[i + 1..];
      match tokens[i] {
        case OpenObject => stack := stack + [Frame(true, true, {})];
        case OpenArray => stack := stack + [Frame(false, false, {})];
        case CloseObject =>
          if stack == [] { return Underflow; }
          stack := Consumed(Pop(stack));
        case CloseArray =>
          if stack == [] { return Underflow; }
          stack := Consumed(Pop(stack));
        case String(text) =>
          if ExpectsName(stack) {
            if text in Top(stack).members { return Rejected; }
            stack := Pop(stack) + [Frame(true, false, Top(stack).members + {text})];
          } else {
            stack := Consumed(stack);
          }
        case Literal => stack := Consumed(stack);
      }
    }
    return Going(stack);
  }

  /******* The recursive scanner *******/

  /** Another member or item follows: neither the end of the input nor a closing delimiter. */
  predicate More(ts: seq<Token>) {
    ts != [] && !ts[0].CloseObject? && !ts[0].CloseArray?
  }

  /** The tokens left after one value, or nothing when it is rejected. */
  function ScanValue(ts: seq<Token>): (r: Option<seq<Token>>)
    ensures r.Some? ==> |r.value| < |ts|
    decreases |ts|, 0
  {
    if ts == [] then None
    else
      match ts[0]
      case OpenObject => ScanMembers(ts[1..], {})
      case OpenArray => ScanItems(ts[1..])
      case String(_) => Some(ts[1..])
      case Literal => Some(ts[1..])
      case _ => None
  }

  function ScanMembers(ts: seq<Token>, seen: set<string>): (r: Option<seq<Token>>)
    ensures r.Some? ==> |r.value| < |ts|
    decreases |ts|, 1
  {
    if !More(ts) then
      if ts != [] && ts[0].CloseObject? then Some(ts[1..]) else None
    else if !ts[0].String? || ts[0].text in seen then None
    else
      var rest := ScanValue(ts[1..]);
      if rest.None? then None else ScanMembers(rest.value, seen + {ts[0].text})
  }

  function ScanItems(ts: seq<Token>): (r: Option<seq<Token>>)
    ensures r.Some? ==> |r.value| < |ts|
    decreases |ts|, 1
  {
    if !More(ts) then
      if ts != [] && ts[0].CloseArray? then Some(ts[1..]) else None
    else
      var rest := ScanValue(ts);
      if rest.None? then None else ScanItems(rest.value)
  }

  lemma {:induction false} ScanOneValue(v: Json, rest: seq<Token>)
    ensures ScanValue(Tokens(v) + rest) == if Repeats(v) then None else Some(rest)
    decreases v
  {
    var ts := Tokens(v) + rest;
    match v
    case Object(members) =>
      assert ts[1..] == MemberTokens(members) + ([CloseObject] + rest);
      ScanAllMembers(members, {}, rest);
    case Array(items) =>
      assert ts[1..] == ItemTokens(items) + ([CloseArray] + rest);
      ScanAllItems(items, rest);
    case Text(_) => assert ts[1..] == rest;
    case Scalar => assert ts[1..] == rest;
  }

  lemma {:induction false} ScanAllMembers(ms: Members, seen: set<string>, rest: seq<Token>)
    ensures ScanMembers(MemberTokens(ms) + ([CloseObject] + rest), seen) ==
            if MembersRepeat(ms) || seen * Names(ms) != {} then None else Some(rest)
    decreases ms
  {
    var ts := MemberTokens(ms) + ([CloseObject] + rest);
    match ms
    case NoMembers =>
      assert ts[1..] == rest;
    case Member(name, value, others) =>
      var after := MemberTokens(others) + ([CloseObject] + rest);
      assert ts[1..] == Tokens(value) + after;
      ScanOneValue(value, after);
      if name !in seen && !Repeats(value) {
        ScanAllMembers(others, seen + {name}, rest);
        assert (seen + {name}) * Names(others) == {} <==> seen * Names(others) == {} && name !in Names(others);
        assert seen * Names(ms) == {} <==> seen * Names(others) == {};
      } else if name in seen {
        assert name in seen * Names(ms);
      }
  }

  lemma FirstToken(v: Json)
    ensures Tokens(v) != [] && !Tokens(v)[0].CloseObject? && !Tokens(v)[0].CloseArray?
  {
  }

  lemma {:induction false} ScanAllItems(vs: Items, rest: seq<Token>)
    ensures ScanItems(ItemTokens(vs) + ([CloseArray] + rest)) == if ItemsRepeat(vs) then None else Some(rest)
    decreases vs
  {
    var ts := ItemTokens(vs) + ([CloseArray] + rest);
    match vs
    case NoItems =>
      assert ts[1..] == rest;
    case Item(value, others) =>
      var after := ItemTokens(others) + ([CloseArray] + rest);
      assert ts == Tokens(value) + after;
      FirstToken(value);
      ScanOneValue(value, after);
      if !Repeats(value) {
        ScanAllItems(others, rest);
      }
  }

  /** The recursive scanner, reading tokens from a cursor and keeping one set of names per object. */
  method ScanAt(tokens: seq<Token>, start: nat) returns (ok: bool, end: nat)
    requires start <= |tokens|
    ensures ok <==> ScanValue(tokens[start..]).Some?
    ensures ok ==> start < end <= |tokens| && ScanValue(tokens[start..]) == Some(tokens[end..])
    decreases |tokens| - start
  {
    if start == |tokens| {
      return false, start;
    }
    end := start + 1;
    assert tokens[start..][1..] == tokens[end..];
    match tokens[start]
    case OpenObject =>
      var members: set<string> := {};
      while end < |tokens| && More(tokens[end..])
        invariant start < end <= |tokens|
        invariant ScanMembers(tokens[start + 1..], {}) == ScanMembers(tokens[end..], members)
        decreases |tokens| - end
      {
        var name := tokens[end];
        assert tokens[end..][1..] == tokens[end + 1..];
        if !name.String? || name.text in members {
          return false, end;
        }
        members := members + {name.text};
        ok, end := ScanAt(tokens, end + 1);
        if !ok {
          return;
        }
      }
      ok, end := CloseAt(tokens, end, CloseObject);
    case OpenArray =>
      while end < |tokens| && More(tokens[end..])
        invariant start < end <= |tokens|
        invariant ScanItems(tokens[start + 1..]) == ScanItems(tokens[end..])
        decreases |tokens| - end
      {
        ok, end := ScanAt(tokens, end);
        if !ok {
          return;
        }
      }
      ok, end := CloseAt(tokens, end, CloseArray);
    case String(_) => return true, end;
    case Literal => return true, end;
    case _ => return false, end;
  }

  method CloseAt(tokens: seq<Token>, at: nat, closing: Token) returns (ok: bool, end: nat)
    requires at <= |tokens|
    ensures ok <==> at < |tokens| && tokens[at] == closing
    ensures ok ==> end == at + 1
    ensures ok ==> tokens[at..][1..] == tokens[end..]
  {
    ok, end := at < |tokens| && tokens[at] == closing, at + 1;
    if ok {
      assert tokens[at..][1..] == tokens[end..];
    }
  }

  /** On every well-formed value both scanners agree, and reject exactly when some object repeats a member name. */
  lemma ScannersAgree(v: Json)
    ensures Run(Going([]), Tokens(v)) == if Repeats(v) then Rejected else Going([])
    ensures ScanValue(Tokens(v)) == if Repeats(v) then None else Some([])
  {
    RunValue([], v);
    ScanOneValue(v, []);
    assert Tokens(v) + [] == Tokens(v);
  }
}
