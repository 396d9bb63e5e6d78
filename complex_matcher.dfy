/** The complex matcher (src/common/complex-matcher.js): a small query
    language for filtering objects.

        and      = term+
        term     = ws* (not | property | string)
        not      = "!" term
        property = string ":" term
        string   = /[a-z0-9-_.]+/i

    The grammar is first given as functions of the pattern and a
    position (`Term`, `NotTerm`, ...); the `Parser` class is the source's
    parser, whose closures share a mutable cursor, and each of its methods
    is proved to compute what the corresponding function says. */
module ComplexMatcher {
  import opened Wrappers
  import opened JsValues

  datatype Node =
    | And(children: seq<Node>)
    | Or(children: seq<Node>)
    | Not(child: Node)
    | Property(name: string, child: Node)
    | StringNode(value: string)

  // ===================================================================
  // The grammar

  /** `[a-z0-9-_.]` under the `i` flag. */
  predicate IsWordChar(c: char) {
    ('a' <= c <= 'z') || ('A' <= c <= 'Z') || ('0' <= c <= '9') || c == '-' || c == '_' || c == '.'
  }

  predicate IsWord(s: string) {
    s != [] && forall k :: 0 <= k < |s| ==> IsWordChar(s[k])
  }

  /** Length of the run of word characters starting at `i`. */
  function WordRun(s: string, i: nat): (m: nat)
    requires i <= |s|
    ensures i + m <= |s|
    ensures forall k :: i <= k < i + m ==> IsWordChar(s[k])
    ensures i + m < |s| ==> !IsWordChar(s[i + m])
    decreases |s| - i
  {
    if i < |s| && IsWordChar(s[i]) then 1 + WordRun(s, i + 1) else 0
  }

  function SkipSpaces(s: string, i: nat): (j: nat)
    requires i <= |s|
    ensures i <= j <= |s|
    ensures forall k :: i <= k < j ==> s[k] == ' '
    ensures j < |s| ==> s[j] != ' '
    decreases |s| - i
  {
    if i < |s| && s[i] == ' ' then SkipSpaces(s, i + 1) else i
  }

  /** A term that the parser can produce: never an `and` or an `or`. */
  predicate WfTerm(t: Node) {
    match t
    case StringNode(v) => IsWord(v)
    case Not(c) => WfTerm(c)
    case Property(name, c) => IsWord(name) && WfTerm(c)
    case _ => false
  }

  /** What `parse` can return: a term, or an `and` of two terms or more. */
  predicate WfNode(t: Node) {
    WfTerm(t) || (t.And? && |t.children| >= 2 && forall k :: 0 <= k < |t.children| ==> WfTerm(t.children[k]))
  }

  /** `string`: the longest run of word characters, if any. */
  function StringTerm(s: string, i: nat): (r: Option<(Node, nat)>)
    requires i <= |s|
    ensures r.Some? ==> i < r.value.1 <= |s| && WfTerm(r.value.0)
    ensures r.Some? ==> r.value.0 == StringNode(s[i..r.value.1])
    ensures r.None? <==> i == |s| || !IsWordChar(s[i])
  {
    var m := WordRun(s, i);
    if m == 0 then None else Some((StringNode(s[i..i + m]), i + m))
  }

  /** `term`: white space, then the first of `not`, `property`, `string`
      that succeeds. */
  function Term(s: string, i: nat): (r: Option<(Node, nat)>)
    requires i <= |s|
    ensures r.Some? ==> i < r.value.1 <= |s| && WfTerm(r.value.0)
    decreases |s| - i, 2
  {
    var j := SkipSpaces(s, i);
    var a := NotTerm(s, j);
    if a.Some? then a
    else
      var b := PropertyTerm(s, j);
      if b.Some? then b else StringTerm(s, j)
  }

  /** `not`: a '!' and a term. */
  function NotTerm(s: string, i: nat): (r: Option<(Node, nat)>)
    requires i <= |s|
    ensures r.Some? ==> i < r.value.1 <= |s| && WfTerm(r.value.0)
    ensures r.Some? ==> r.value.0.Not?
    decreases |s| - i, 1
  {
    if i < |s| && s[i] == '!' then
      var c := Term(s, i + 1);
      if c.Some? then Some((Not(c.value.0), c.value.1)) else None
    else None
  }

  /** `property`: a string, a ':' and a term. */
  function PropertyTerm(s: string, i: nat): (r: Option<(Node, nat)>)
    requires i <= |s|
    ensures r.Some? ==> i < r.value.1 <= |s| && WfTerm(r.value.0)
    ensures r.Some? ==> r.value.0.Property?
    decreases |s| - i, 1
  {
    var name := StringTerm(s, i);
    if name.None? then None
    else
      var k := name.value.1;
      if k < |s| && s[k] == ':' then
        var c := Term(s, k + 1);
        if c.Some? then Some((Property(name.value.0.value, c.value.0), c.value.1)) else None
      else None
  }

  /** The loop of `and`: terms for as long as one parses and the pattern
      is not exhausted. */
  function Terms(s: string, i: nat): (r: (seq<Node>, nat))
    requires i <= |s|
    ensures i <= r.1 <= |s|
    ensures forall k :: 0 <= k < |r.0| ==> WfTerm(r.0[k])
    ensures r.0 == [] ==> r.1 == i
    decreases |s| - i
  {
    if i >= |s| then ([], i)
    else
      var t := Term(s, i);
      if t.None? then ([], i)
      else
        var rest := Terms(s, t.value.1);
        ([t.value.0] + rest.0, rest.1)
  }

  /** `parse(pattern)`: `None` when no term parses. What follows the last
      term that parses is ignored. */
  function Parsed(s: string): (r: Option<Node>)
    ensures r.Some? ==> WfNode(r.value)
    ensures r.None? <==> Terms(s, 0).0 == []
  {
    var children := Terms(s, 0).0;
    if |children| == 0 then None
    else if |children| == 1 then Some(children[0])
    else Some(And(children))
  }

  // ===================================================================
  // The parser, as the source writes it

  class Parser {
    const pattern: string
    const n: nat
    var i: int

    predicate Valid()
      reads this
    {
      n == |pattern| && 0 <= i <= n
    }

    constructor (p: string)
      ensures Valid() && pattern == p && i == 0
    {
      pattern := p;
      n := |p|;
      i := 0;
    }

    /** `parseString`. */
    method ParseString() returns (node: Option<Node>)
      requires Valid()
      modifies this
      ensures Valid()
      ensures StringTerm(pattern, old(i)) == if node.Some? then Some((node.value, i)) else None
      ensures node.None? ==> i == old(i)
    {
      var m := WordRun(pattern, i);
      if m == 0 {
        return None;
      }
      var value := pattern[i..i + m];
      i := i + m;
      return Some(StringNode(value));
    }

    /** `parseTerm`. */
    method ParseTerm() returns (node: Option<Node>)
      requires Valid()
      modifies this
      ensures Valid()
      ensures Term(pattern, old(i)) == if node.Some? then Some((node.value, i)) else None
      ensures node.None? ==> i == old(i)
      decreases n - i, 2
    {
      var pos := i;
      while i < n && pattern[i] == ' '
        invariant pos <= i <= n && Valid()
        invariant SkipSpaces(pattern, pos) == SkipSpaces(pattern, i)
        decreases n - i
      {
        i := i + 1;
      }
      node := ParseNot();
      if node.None? {
        node := ParseProperty();
      }
      if node.None? {
        node := ParseString();
      }
      if node.None? {
        i := pos;
      }
    }

    /** `parseNot`: the cursor moves past the character it tests even when
        it is not a '!', and is restored when the rule fails. */
    method ParseNot() returns (node: Option<Node>)
      requires Valid()
      modifies this
      ensures Valid()
      ensures NotTerm(pattern, old(i)) == if node.Some? then Some((node.value, i)) else None
      ensures node.None? ==> i == old(i)
      decreases n - i, 1
    {
      var pos := i;
      var isBang := i < n && pattern[i] == '!';
      i := i + 1;
      if isBang {
        var child := ParseTerm();
        if child.Some? {
          return Some(Not(child.value));
        }
      }
      i := pos;
      return None;
    }

    /** `parseProperty`. */
    method ParseProperty() returns (node: Option<Node>)
      requires Valid()
      modifies this
      ensures Valid()
      ensures PropertyTerm(pattern, old(i)) == if node.Some? then Some((node.value, i)) else None
      ensures node.None? ==> i == old(i)
      decreases n - i, 1
    {
      var pos := i;
      var name := ParseString();
      if name.Some? {
        var isColon := i < n && pattern[i] == ':';
        i := i + 1;
        if isColon {
          var child := ParseTerm();
          if child.Some? {
            return Some(Property(name.value.value, child.value));
          }
        }
      }
      i := pos;
      return None;
    }

    /** `parseAnd`. */
    method ParseAnd() returns (node: Option<Node>)
      requires Valid()
      modifies this
      ensures Valid()
      ensures node == (var ts := Terms(pattern, old(i)).0;
                       if |ts| == 0 then None else if |ts| == 1 then Some(ts[0]) else Some(And(ts)))
      ensures node.None? ==> i == old(i)
    {
      var pos := i;
      var children: seq<Node> := [];
      assert children + Terms(pattern, i).0 == Terms(pattern, i).0;
      while i < n
        invariant Valid() && pos <= i
        invariant Terms(pattern, pos) == (children + Terms(pattern, i).0, Terms(pattern, i).1)
        invariant children == [] ==> i == pos
        decreases n - i
      {
        ghost var before := i;
        var child := ParseTerm();
        if child.None? {
          assert Terms(pattern, i).0 == [];
          break;
        }
        assert Terms(pattern, before).0 == [child.value] + Terms(pattern, i).0;
        assert children + ([child.value] + Terms(pattern, i).0) == (children + [child.value]) + Terms(pattern, i).0;
        children := children + [child.value];
      }
      assert Terms(pattern, i).0 == [];
      assert children == Terms(pattern, pos).0;
      if |children| == 0 {
        i := pos;
        return None;
      }
      if |children| == 1 {
        return Some(children[0]);
      }
      return Some(And(children));
    }
  }

  /** `parse(pattern)`. */
  method Parse(pattern: string) returns (r: Option<Node>)
    ensures r == Parsed(pattern)
  {
    var parser := new Parser(pattern);
    r := parser.ParseAnd();
  }

  // ===================================================================
  // Printing: the inverse of parsing on the trees the parser produces

  function Print(t: Node): string
    decreases t, 1
  {
    match t
    case StringNode(v) => v
    case Not(c) => "!" + Print(c)
    case Property(name, c) => name + ":" + Print(c)
    case And(cs) => PrintSeq(cs)
    case Or(cs) => PrintSeq(cs)
  }

  /** The terms separated by single spaces. */
  function PrintSeq(cs: seq<Node>): string
    decreases cs, 0
  {
    if cs == [] then ""
    else if |cs| == 1 then Print(cs[0])
    else Print(cs[0]) + " " + PrintSeq(cs[1..])
  }

  /** The end of a printed term: the end of the pattern or a space. */
  predicate Boundary(s: string, e: nat) {
    e == |s| || (e < |s| && s[e] == ' ')
  }

  /** `p` is written in `s` from position `i` on, one character at a
      time. */
  predicate Written(s: string, p: string, i: nat)
    decreases |p|
  {
    if p == [] then i <= |s| else i < |s| && s[i] == p[0] && Written(s, p[1..], i + 1)
  }

  lemma {:induction false} WrittenOccurs(s: string, p: string, i: nat)
    ensures Written(s, p, i) <==> OccursAt(s, p, i)
    decreases |p|
  {
    if p != [] {
      WrittenOccurs(s, p[1..], i + 1);
      if i + |p| <= |s| {
        assert s[i..i + |p|] == [s[i]] + s[i + 1..i + 1 + |p[1..]|];
        assert p == [p[0]] + p[1..];
      }
    }
  }

  lemma {:induction false} WordAt(s: string, i: nat, v: string)
    requires IsWord(v) && Written(s, v, i)
    requires i + |v| < |s| ==> !IsWordChar(s[i + |v|])
    ensures StringTerm(s, i) == Some((StringNode(v), i + |v|))
  {
    WrittenOccurs(s, v, i);
    forall k | 0 <= k < |v| ensures s[i + k] == v[k] {
      assert s[i..i + |v|][k] == s[i + k];
    }
  }

  lemma {:induction false} WrittenSplit(s: string, i: nat, a: string, b: string)
    requires Written(s, a + b, i)
    ensures Written(s, a, i) && Written(s, b, i + |a|)
    decreases |a|
  {
    if a == [] {
      assert a + b == b;
    } else {
      assert (a + b)[0] == a[0] && (a + b)[1..] == a[1..] + b;
      WrittenSplit(s, i + 1, a[1..], b);
    }
  }

  predicate PrintedAt(s: string, i: nat, t: Node) {
    WfTerm(t) && Written(s, Print(t), i) && Boundary(s, i + |Print(t)|)
  }

  /** A printed term, followed by a space or the end, parses back. */
  lemma {:induction false} TermPrint(s: string, i: nat, t: Node)
    requires PrintedAt(s, i, t)
    ensures Term(s, i) == Some((t, i + |Print(t)|))
    decreases t, 2
  {
    match t
    case StringNode(v) => StringPrint(s, i, v);
    case Not(c) => NotPrint(s, i, c);
    case Property(name, c) => PropertyPrint(s, i, name, c);
  }

  lemma {:induction false} FirstChar(s: string, i: nat, p: string)
    requires Written(s, p, i) && p != []
    ensures i < |s| && s[i] == p[0]
  {
  }

  lemma {:induction false} StringPrint(s: string, i: nat, v: string)
    requires PrintedAt(s, i, StringNode(v))
    ensures Term(s, i) == Some((StringNode(v), i + |v|))
  {
    FirstChar(s, i, v);
    WordAt(s, i, v);
    assert SkipSpaces(s, i) == i;
    assert NotTerm(s, i).None?;
    assert PropertyTerm(s, i).None?;
  }

  lemma {:induction false} NotPrint(s: string, i: nat, c: Node)
    requires PrintedAt(s, i, Not(c))
    ensures Term(s, i) == Some((Not(c), i + |Print(Not(c))|))
    decreases Not(c), 0
  {
    WrittenSplit(s, i, "!", Print(c));
    FirstChar(s, i, "!");
    TermPrint(s, i + 1, c);
    assert SkipSpaces(s, i) == i;
  }

  lemma {:induction false} PropertyPrint(s: string, i: nat, name: string, c: Node)
    requires PrintedAt(s, i, Property(name, c))
    ensures Term(s, i) == Some((Property(name, c), i + |Print(Property(name, c))|))
    decreases Property(name, c), 1
  {
    PropertyTermAt(s, i, name, c);
    FirstChar(s, i, name + ":" + Print(c));
    assert SkipSpaces(s, i) == i;
    assert NotTerm(s, i).None?;
  }

  lemma {:induction false} PropertyTermAt(s: string, i: nat, name: string, c: Node)
    requires PrintedAt(s, i, Property(name, c))
    ensures PropertyTerm(s, i) == Some((Property(name, c), i + |Print(Property(name, c))|))
    decreases Property(name, c), 0
  {
    WrittenSplit(s, i, name + ":", Print(c));
    WrittenSplit(s, i, name, ":");
    FirstChar(s, i + |name|, ":");
    WordAt(s, i, name);
    TermPrint(s, i + |name| + 1, c);
  }

  /** A space before a term is skipped. */
  lemma SpaceBeforeTerm(s: string, i: nat)
    requires i < |s| && s[i] == ' '
    ensures Term(s, i) == Term(s, i + 1)
  {
    assert SkipSpaces(s, i) == SkipSpaces(s, i + 1);
  }

  lemma {:induction false} SpaceBeforeTerms(s: string, i: nat)
    requires i < |s| && s[i] == ' ' && Terms(s, i + 1).0 != []
    ensures Terms(s, i) == Terms(s, i + 1)
  {
    SpaceBeforeTerm(s, i);
  }

  lemma {:induction false} LastTermPrint(s: string, i: nat, t: Node)
    requires WfTerm(t) && Written(s, Print(t), i) && i + |Print(t)| == |s|
    ensures Terms(s, i) == ([t], |s|)
  {
    TermPrint(s, i, t);
    assert Terms(s, |s|) == ([], |s|);
    assert [t] + [] == [t];
  }

  /** Printed terms, running to the end of the pattern, parse back. */
  lemma {:induction false} TermsPrint(s: string, i: nat, cs: seq<Node>)
    requires cs != [] && (forall k :: 0 <= k < |cs| ==> WfTerm(cs[k]))
    requires Written(s, PrintSeq(cs), i) && i + |PrintSeq(cs)| == |s|
    ensures Terms(s, i) == (cs, |s|)
    decreases |cs|, 1
  {
    if |cs| == 1 {
      LastTermPrint(s, i, cs[0]);
      assert [cs[0]] == cs;
    } else {
      PrintSeqSplit(s, i, cs);
      TermPrint(s, i, cs[0]);
      TermsPrintMore(s, i, i + |Print(cs[0])|, cs);
    }
  }

  lemma {:induction false} TermsPrintMore(s: string, i: nat, e: nat, cs: seq<Node>)
    requires |cs| > 1 && (forall k :: 0 <= k < |cs| ==> WfTerm(cs[k]))
    requires i <= e < |s| && s[e] == ' ' && Term(s, i) == Some((cs[0], e))
    requires Written(s, PrintSeq(cs[1..]), e + 1) && e + 1 + |PrintSeq(cs[1..])| == |s|
    ensures Terms(s, i) == (cs, |s|)
    decreases |cs|, 0
  {
    TermsPrint(s, e + 1, cs[1..]);
    TermsStep(s, i, e, cs[0], cs[1..]);
    assert [cs[0]] + cs[1..] == cs;
  }

  /** The first of several printed terms is followed by a space and the
      others. */
  lemma PrintSeqSplit(s: string, i: nat, cs: seq<Node>)
    requires |cs| > 1 && WfTerm(cs[0])
    requires Written(s, PrintSeq(cs), i) && i + |PrintSeq(cs)| == |s|
    ensures i + |Print(cs[0])| < |s| && s[i + |Print(cs[0])|] == ' '
    ensures PrintedAt(s, i, cs[0])
    ensures Written(s, PrintSeq(cs[1..]), i + |Print(cs[0])| + 1)
    ensures i + |Print(cs[0])| + 1 + |PrintSeq(cs[1..])| == |s|
  {
    var p0 := Print(cs[0]);
    var e := i + |p0|;
    var rest := PrintSeq(cs[1..]);
    assert PrintSeq(cs) == p0 + " " + rest;
    WrittenSplit(s, i, p0 + " ", rest);
    WrittenSplit(s, i, p0, " ");
    FirstChar(s, e, " ");
  }

  /** A term followed by a space and more terms starts the sequence. */
  lemma TermsStep(s: string, i: nat, e: nat, t: Node, ts: seq<Node>)
    requires i <= e < |s| && s[e] == ' '
    requires Term(s, i) == Some((t, e)) && Terms(s, e + 1) == (ts, |s|) && ts != []
    ensures Terms(s, i) == ([t] + ts, |s|)
  {
    SpaceBeforeTerms(s, e);
  }

  /** Parsing a printed tree gives the tree back. */
  lemma ParsePrint(t: Node)
    requires WfNode(t)
    ensures Parsed(Print(t)) == Some(t)
  {
    var s := Print(t);
    assert Written(s, s, 0) by {
      assert s[0..|s|] == s;
      WrittenOccurs(s, s, 0);
    }
    if WfTerm(t) {
      assert PrintSeq([t]) == s;
      TermsPrint(s, 0, [t]);
    } else {
      TermsPrint(s, 0, t.children);
    }
  }

  /** Examples: the empty pattern matches nothing; what cannot be parsed
      after the first terms is dropped. */
  lemma ParseExamples()
    ensures Parsed("") == None
    ensures Parsed("  ") == None
    ensures Parsed("!") == None
    ensures Parsed("a )") == Some(StringNode("a"))
  {
    assert Terms("a )", 0) == ([StringNode("a")], 1) by {
      var p := "a )";
      assert p[0] == 'a' && p[1] == ' ' && p[2] == ')';
      assert WordRun(p, 1) == 0;
      assert WordRun(p, 0) == 1;
      assert p[0..1] == "a";
      assert SkipSpaces(p, 0) == 0;
      assert NotTerm(p, 0).None?;
      assert PropertyTerm(p, 0).None?;
      assert Term("a )", 0) == Some((StringNode("a"), 1));
      assert SkipSpaces(p, 2) == 2;
      assert SkipSpaces(p, 1) == 2;
      assert NotTerm(p, 2).None? && StringTerm(p, 2).None?;
      assert Term(p, 1).None?;
      assert Terms(p, 1) == ([], 1);
      assert [StringNode("a")] + [] == [StringNode("a")];
    }
    assert Terms("  ", 0) == ([], 0) by {
      assert SkipSpaces("  ", 0) == 2;
    }
    assert Terms("!", 0) == ([], 0) by {
      assert Term("!", 1).None?;
      assert NotTerm("!", 0).None?;
    }
  }

  // ===================================================================
  // Execution

  /** `execute(node, value)`. */
  function Execute(node: Node, value: Value): bool
    decreases node, 1
  {
    match node
    case And(cs) => ExecuteAll(cs, value)
    case Or(cs) => ExecuteAny(cs, value)
    case Not(c) => !Execute(c, value)
    case Property(name, c) => !IsNullish(value) && Execute(c, Get(value, name))
    case StringNode(p) => Match(ToLower(p), value)
  }

  /** lodash `every`. */
  function ExecuteAll(cs: seq<Node>, value: Value): bool
    decreases cs, 0
  {
    cs == [] || (Execute(cs[0], value) && ExecuteAll(cs[1..], value))
  }

  /** lodash `some`. */
  function ExecuteAny(cs: seq<Node>, value: Value): bool
    decreases cs, 0
  {
    cs != [] && (Execute(cs[0], value) || ExecuteAny(cs[1..], value))
  }

  /** The `string` visitor's `match`: a string contains the pattern, in
      lower case; an array or a plain object has a value that matches. */
  function Match(p: string, value: Value): bool
    decreases value, 1
  {
    match value
    case Str(s) => Contains(ToLower(s), p)
    case Arr(es) => MatchAny(p, es)
    case Obj(fs) => MatchFields(p, fs)
    case _ => false
  }

  function MatchAny(p: string, es: seq<Value>): bool
    decreases es, 0
  {
    es != [] && (Match(p, es[0]) || MatchAny(p, es[1..]))
  }

  function MatchFields(p: string, fs: seq<Field>): bool
    decreases fs, 0
  {
    fs != [] && (Match(p, fs[0].val) || MatchFields(p, fs[1..]))
  }

  /** `create(pattern)`: a predicate, or `None` when the pattern does not
      parse. */
  method Create(pattern: string) returns (r: Option<Value -> bool>)
    ensures r.None? <==> Parsed(pattern).None?
    ensures r.Some? ==> forall v :: r.value(v) == Execute(Parsed(pattern).value, v)
  {
    var node := Parse(pattern);
    if node.None? {
      return None;
    }
    var t := node.value;
    return Some(v => Execute(t, v));
  }

  // ----- properties of execution

  /** An `and` holds when every child holds, an `or` when one does. */
  lemma {:induction false} ExecuteAllIff(cs: seq<Node>, value: Value)
    ensures ExecuteAll(cs, value) <==> forall k :: 0 <= k < |cs| ==> Execute(cs[k], value)
    ensures ExecuteAny(cs, value) <==> exists k :: 0 <= k < |cs| && Execute(cs[k], value)
  {
    if cs != [] {
      ExecuteAllIff(cs[1..], value);
      assert forall k :: 1 <= k < |cs| ==> cs[k] == cs[1..][k - 1];
    }
  }

  /** A string pattern matches an array when it matches one of its
      elements. */
  lemma {:induction false} MatchAnyIff(p: string, es: seq<Value>)
    ensures MatchAny(p, es) <==> exists k :: 0 <= k < |es| && Match(p, es[k])
  {
    if es != [] {
      MatchAnyIff(p, es[1..]);
      assert forall k :: 1 <= k < |es| ==> es[k] == es[1..][k - 1];
    }
  }

  /** A string pattern matches an object when it matches the value of one
      of its properties. */
  lemma {:induction false} MatchFieldsIff(p: string, fs: seq<Field>)
    ensures MatchFields(p, fs) <==> exists k :: 0 <= k < |fs| && Match(p, fs[k].val)
  {
    if fs != [] {
      MatchFieldsIff(p, fs[1..]);
      assert forall k :: 1 <= k < |fs| ==> fs[k] == fs[1..][k - 1];
    }
  }

  /** Matching ignores the case of the pattern and of the string. */
  lemma StringCaseInsensitive(p: string, s: string)
    ensures Execute(StringNode(p), Str(s)) == Execute(StringNode(ToLower(p)), Str(ToLower(s)))
  {
    ToLowerIdempotent(p);
    ToLowerIdempotent(s);
  }

  /** A property test is false on null and undefined, whatever its child. */
  lemma PropertyOfNullish(name: string, c: Node, value: Value)
    requires IsNullish(value)
    ensures !Execute(Property(name, c), value)
  {
  }
}
