/** Structural validation of one generated `<section>`: a stack-based matcher over the
    start and end tags that the HTML tokenizer reports, and the ordered checklist
    that turns the matcher's final state into a verdict. */
module HtmlValidator {
  import opened Common

  /** An attribute as the tokenizer reports it; a bare attribute has no value. */
  type Attr = (string, Option<string>)

  datatype Token = StartTag(tag: string, attrs: seq<Attr>) | EndTag(tag: string)

  /** What feeding the text to the tokenizer produced: the tag events in order, or
      the exception it raised. */
  datatype Tokenization = Tokens(tokens: seq<Token>) | ParseFailure(message: string)

  /** Tags that never get a matching end tag. */
  const SelfClosingTags: set<string> :=
    {"img", "br", "hr", "input", "meta", "link", "area", "base", "col", "embed",
     "param", "source", "track", "wbr"}

  /** The matcher's fields. An unset root tag or id is "" (Python's None and "" are
      both falsy, and only falsiness is ever tested). */
  datatype ParserState = ParserState(
    tagStack: seq<string>,
    rootTag: string,
    rootClasses: seq<string>,
    rootId: string,
    unclosedTags: seq<string>)

  const Initial := ParserState([], "", [], "", [])

  /** `dict(attrs).get(name)`: the value of the LAST attribute called name, if any. */
  function Lookup(attrs: seq<Attr>, name: string): Option<Option<string>>
  {
    if attrs == [] then None
    else if attrs[|attrs| - 1].0 == name then Some(attrs[|attrs| - 1].1)
    else Lookup(attrs[..|attrs| - 1], name)
  }

  /** `dict(attrs).get(name, "")` read through falsiness: a missing or bare attribute is "". */
  function AttrText(attrs: seq<Attr>, name: string): string
  {
    match Lookup(attrs, name)
    case Some(Some(v)) => v
    case _ => ""
  }

  /** `handle_starttag` on the state's value. */
  function StartStep(st: ParserState, tag: string, attrs: seq<Attr>): ParserState
  {
    var rooted :=
      if st.rootTag == "" then
        st.(rootTag := tag, rootId := AttrText(attrs, "id"),
            rootClasses := Words(AttrText(attrs, "class")))
      else st;
    if tag !in SelfClosingTags then rooted.(tagStack := rooted.tagStack + [tag]) else rooted
  }

  /** `handle_endtag` on the state's value. */
  function EndStep(st: ParserState, tag: string): ParserState
  {
    if st.tagStack != [] && st.tagStack[|st.tagStack| - 1] == tag then
      st.(tagStack := st.tagStack[..|st.tagStack| - 1])
    else if tag !in SelfClosingTags then
      st.(unclosedTags := st.unclosedTags + [tag])
    else st
  }

  function Step(st: ParserState, t: Token): ParserState
  {
    match t
    case StartTag(tag, attrs) => StartStep(st, tag, attrs)
    case EndTag(tag) => EndStep(st, tag)
  }

  /** The state after handling every token of ts, in order. */
  function FeedAll(st: ParserState, ts: seq<Token>): ParserState
  {
    if ts == [] then st else Step(FeedAll(st, ts[..|ts| - 1]), ts[|ts| - 1])
  }

  /** `close`: what is still open joins the mismatched end tags. */
  function CloseState(st: ParserState): ParserState
  {
    st.(unclosedTags := st.unclosedTags + st.tagStack)
  }

  /** The conditions of a valid knowledge-unit section. */
  predicate Accepted(st: ParserState)
  {
    && st.rootTag == "section"
    && "knowledge-unit" in st.rootClasses
    && st.rootId != ""
    && st.unclosedTags == []
  }

  /** The ordered checklist of `validate`: the first rule that fails names the error. */
  function Checklist(st: ParserState): (r: (bool, string))
    ensures r.0 <==> Accepted(st)
    ensures r.0 <==> r.1 == ""
    ensures st.rootTag == "" ==> r == (false, "No root element found")
    ensures st.rootTag != "" && st.rootTag != "section" ==>
              r == (false, "Root element must be <section>, found <" + st.rootTag + ">")
    ensures st.rootTag == "section" && "knowledge-unit" !in st.rootClasses ==>
              r == (false, "Root <section> must have class 'knowledge-unit'")
    ensures st.rootTag == "section" && "knowledge-unit" in st.rootClasses && st.rootId == "" ==>
              r == (false, "Root <section> must have an id attribute")
    ensures st.rootTag == "section" && "knowledge-unit" in st.rootClasses && st.rootId != "" &&
            st.unclosedTags != [] ==>
              r == (false, "Unclosed tags: " + Join(", ", st.unclosedTags))
  {
    if st.rootTag == "" then (false, "No root element found")
    else if st.rootTag != "section" then
      (false, "Root element must be <section>, found <" + st.rootTag + ">")
    else if "knowledge-unit" !in st.rootClasses then
      (false, "Root <section> must have class 'knowledge-unit'")
    else if st.rootId == "" then (false, "Root <section> must have an id attribute")
    else if st.unclosedTags != [] then
      (false, "Unclosed tags: " + Join(", ", st.unclosedTags))
    else (true, "")
  }

  /** `HTMLValidator.validate` as a value: a tokenizer failure is a verdict, never an
      escaping exception. */
  function Verdict(input: Tokenization): (r: (bool, string))
    ensures r.0 <==> input.Tokens? && Accepted(CloseState(FeedAll(Initial, input.tokens)))
    ensures r.0 <==> r.1 == ""
    ensures input.ParseFailure? ==> r == (false, "HTML parsing error: " + input.message)
  {
    match input
    case ParseFailure(e) => (false, "HTML parsing error: " + e)
    case Tokens(ts) => Checklist(CloseState(FeedAll(Initial, ts)))
  }

  /** `HTMLStructureParser`: the tag stack, the root element's tag, classes and id,
      and the tags found unclosed or mismatched. */
  class StructureParser {
    var tagStack: seq<string>
    var rootTag: string
    var rootClasses: seq<string>
    var rootId: string
    var unclosedTags: seq<string>

    function State(): ParserState
      reads this
    {
      ParserState(tagStack, rootTag, rootClasses, rootId, unclosedTags)
    }

    constructor ()
      ensures State() == Initial
    {
      tagStack, rootTag, rootClasses, rootId, unclosedTags := [], "", [], "", [];
    }

    /** The first start tag fixes the root; every tag except a void one is pushed. */
    method HandleStartTag(tag: string, attrs: seq<Attr>)
      modifies this
      ensures old(rootTag) == "" ==>
                rootTag == tag && rootId == AttrText(attrs, "id") &&
                rootClasses == Words(AttrText(attrs, "class"))
      ensures old(rootTag) != "" ==>
                rootTag == old(rootTag) && rootId == old(rootId) && rootClasses == old(rootClasses)
      ensures tagStack == if tag in SelfClosingTags then old(tagStack) else old(tagStack) + [tag]
      ensures unclosedTags == old(unclosedTags)
    {
      if rootTag == "" {
        rootTag := tag;
        rootId := AttrText(attrs, "id");
        var classAttr := AttrText(attrs, "class");
        rootClasses := if classAttr != "" then Words(classAttr) else [];
      }
      if tag !in SelfClosingTags {
        tagStack := tagStack + [tag];
      }
    }

    /** A matching end tag pops; any other non-void end tag is recorded as unclosed and
        leaves the stack alone; a void end tag is ignored. */
    method HandleEndTag(tag: string)
      modifies this
      ensures old(tagStack) != [] && old(tagStack)[|old(tagStack)| - 1] == tag ==>
                tagStack == old(tagStack)[..|old(tagStack)| - 1] && unclosedTags == old(unclosedTags)
      ensures !(old(tagStack) != [] && old(tagStack)[|old(tagStack)| - 1] == tag) ==>
                tagStack == old(tagStack) &&
                unclosedTags == if tag in SelfClosingTags then old(unclosedTags)
                                else old(unclosedTags) + [tag]
      ensures rootTag == old(rootTag) && rootId == old(rootId) && rootClasses == old(rootClasses)
    {
      if tagStack != [] && tagStack[|tagStack| - 1] == tag {
        tagStack := tagStack[..|tagStack| - 1];
      } else if tag !in SelfClosingTags {
        unclosedTags := unclosedTags + [tag];
      }
    }

    /** `feed`: hands each token to its handler, in order. */
    method Feed(ts: seq<Token>)
      modifies this
      ensures State() == FeedAll(old(State()), ts)
    {
      ghost var st0 := State();
      var i := 0;
      while i < |ts|
        invariant 0 <= i <= |ts|
        invariant State() == FeedAll(st0, ts[..i])
      {
        assert ts[..i + 1][..i] == ts[..i];
        match ts[i] {
          case StartTag(tag, attrs) => HandleStartTag(tag, attrs);
          case EndTag(tag) => HandleEndTag(tag);
        }
        i := i + 1;
      }
      assert ts[..i] == ts;
    }

    /** `close`: whatever is still on the stack is appended to the unclosed tags. */
    method Close()
      modifies this
      ensures unclosedTags == old(unclosedTags) + old(tagStack)
      ensures tagStack == old(tagStack) && rootTag == old(rootTag)
      ensures rootId == old(rootId) && rootClasses == old(rootClasses)
    {
      if tagStack != [] {
        unclosedTags := unclosedTags + tagStack;
      }
    }
  }

  /** `HTMLValidator.validate`: runs a fresh matcher over the tokens and applies the
      checklist. */
  method Validate(input: Tokenization) returns (ok: bool, message: string)
    ensures (ok, message) == Verdict(input)
    ensures ok <==> input.Tokens? && Accepted(CloseState(FeedAll(Initial, input.tokens)))
    ensures ok <==> message == ""
  {
    match input
    case ParseFailure(e) =>
      ok, message := false, "HTML parsing error: " + e;
    case Tokens(ts) =>
      var parser := new StructureParser();
      parser.Feed(ts);
      parser.Close();
      ok, message := Checklist(parser.State()).0, Checklist(parser.State()).1;
  }

  // ---------------------------------------------------------------------------
  // Properties of the matcher

  lemma {:induction false} FeedAllAppend(st: ParserState, a: seq<Token>, b: seq<Token>)
    ensures FeedAll(st, a + b) == FeedAll(FeedAll(st, a), b)
    decreases |b|
  {
    if b == [] {
      assert a + b == a;
    } else {
      assert (a + b)[..|a + b| - 1] == a + b[..|b| - 1];
      FeedAllAppend(st, a, b[..|b| - 1]);
    }
  }

  /** No void tag is ever on the tag stack. */
  lemma {:induction false} NoVoidOnStack(st: ParserState, ts: seq<Token>)
    requires forall t :: t in st.tagStack ==> t !in SelfClosingTags
    ensures forall t :: t in FeedAll(st, ts).tagStack ==> t !in SelfClosingTags
  {
    if ts != [] {
      NoVoidOnStack(st, ts[..|ts| - 1]);
    }
  }

  predicate IsNamedStart(t: Token)
  {
    t.StartTag? && t.tag != ""
  }

  /** Index of the first start tag with a (non-empty) name. */
  function FirstNamedStart(ts: seq<Token>): (r: Option<nat>)
    ensures r.Some? ==> r.value < |ts| && IsNamedStart(ts[r.value])
    ensures r.Some? ==> forall j :: 0 <= j < r.value ==> !IsNamedStart(ts[j])
    ensures r.None? ==> forall j :: 0 <= j < |ts| ==> !IsNamedStart(ts[j])
  {
    if ts == [] then None
    else if IsNamedStart(ts[0]) then Some(0)
    else match FirstNamedStart(ts[1..])
         case None => None
         case Some(k) => Some(k + 1)
  }

  lemma FirstNamedStartIs(ts: seq<Token>, i: nat)
    requires i < |ts| && IsNamedStart(ts[i])
    requires forall j :: 0 <= j < i ==> !IsNamedStart(ts[j])
    ensures FirstNamedStart(ts) == Some(i)
  {
  }

  /** The root tag, id and classes come from the first start tag only: whatever
      follows it never changes them. */
  lemma {:induction false} RootFromFirstStart(ts: seq<Token>)
    ensures var st := FeedAll(Initial, ts);
            match FirstNamedStart(ts)
            case None => st.rootTag == ""
            case Some(i) =>
              && st.rootTag == ts[i].tag
              && st.rootId == AttrText(ts[i].attrs, "id")
              && st.rootClasses == Words(AttrText(ts[i].attrs, "class"))
    decreases |ts|
  {
    if ts != [] {
      var pre := ts[..|ts| - 1];
      RootFromFirstStart(pre);
      var f, fp := FirstNamedStart(ts), FirstNamedStart(pre);
      if fp.Some? {
        assert pre[fp.value] == ts[fp.value];
        forall j | 0 <= j < fp.value ensures !IsNamedStart(ts[j]) {
          assert ts[j] == pre[j];
        }
        FirstNamedStartIs(ts, fp.value);
      } else {
        forall j | 0 <= j < |ts| - 1 ensures !IsNamedStart(ts[j]) {
          assert ts[j] == pre[j];
        }
        if IsNamedStart(ts[|ts| - 1]) {
          FirstNamedStartIs(ts, |ts| - 1);
        } else {
          assert f.None?;
        }
      }
    }
  }

  // ---------------------------------------------------------------------------
  // Properly nested markup

  /** A tree of elements: a normal element with its children, or a void element. */
  datatype Node =
    | Element(tag: string, attrs: seq<Attr>, children: seq<Node>)
    | Void(tag: string, attrs: seq<Attr>)

  predicate WellFormed(n: Node)
  {
    match n
    case Element(tag, _, kids) => tag !in SelfClosingTags && forall k :: k in kids ==> WellFormed(k)
    case Void(tag, _) => tag in SelfClosingTags
  }

  function Serialize(n: Node): seq<Token>
  {
    match n
    case Element(tag, attrs, kids) => [StartTag(tag, attrs)] + SerializeAll(kids) + [EndTag(tag)]
    case Void(tag, attrs) => [StartTag(tag, attrs)]
  }

  function SerializeAll(ns: seq<Node>): seq<Token>
  {
    if ns == [] then [] else Serialize(ns[0]) + SerializeAll(ns[1..])
  }

  /** Properly nested markup leaves the stack and the unclosed tags as it found them. */
  lemma {:induction false} NestedIsNeutral(st: ParserState, n: Node)
    requires WellFormed(n)
    ensures FeedAll(st, Serialize(n)).tagStack == st.tagStack
    ensures FeedAll(st, Serialize(n)).unclosedTags == st.unclosedTags
    decreases n, 1
  {
    match n
    case Void(tag, attrs) =>
      assert FeedAll(st, Serialize(n)) == StartStep(st, tag, attrs);
    case Element(tag, attrs, kids) =>
      var open := [StartTag(tag, attrs)];
      FeedAllAppend(st, open + SerializeAll(kids), [EndTag(tag)]);
      FeedAllAppend(st, open, SerializeAll(kids));
      var s1 := FeedAll(st, open);
      assert s1 == StartStep(st, tag, attrs);
      assert s1.tagStack == st.tagStack + [tag];
      NestedAllIsNeutral(s1, kids);
      var s2 := FeedAll(s1, SerializeAll(kids));
      assert FeedAll(s2, [EndTag(tag)]) == EndStep(s2, tag);
  }

  lemma {:induction false} NestedAllIsNeutral(st: ParserState, ns: seq<Node>)
    requires forall k :: k in ns ==> WellFormed(k)
    ensures FeedAll(st, SerializeAll(ns)).tagStack == st.tagStack
    ensures FeedAll(st, SerializeAll(ns)).unclosedTags == st.unclosedTags
    decreases ns, 0
  {
    if ns != [] {
      FeedAllAppend(st, Serialize(ns[0]), SerializeAll(ns[1..]));
      NestedIsNeutral(st, ns[0]);
      NestedAllIsNeutral(FeedAll(st, Serialize(ns[0])), ns[1..]);
    }
  }

  lemma WordsOfWord(s: string)
    requires s != [] && forall i :: 0 <= i < |s| ==> !IsSpace(s[i])
    ensures Words(s) == [s]
  {
    WordLengthOfWord(s);
    var n := WordLength(s);
    assert n == |s|;
    assert s[n..] == [];
    assert Words(s[n..]) == [];
    assert s[..n] == s;
    assert Words(s) == [s[..n]] + Words(s[n..]);
  }

  lemma {:induction false} WordLengthOfWord(s: string)
    requires forall i :: 0 <= i < |s| ==> !IsSpace(s[i])
    ensures WordLength(s) == |s|
  {
    if s != [] {
      WordLengthOfWord(s[1..]);
    }
  }

  /** The attributes of a section written as `class="knowledge-unit" id=...`. */
  lemma SectionAttrs(id: string)
    ensures AttrText([("class", Some("knowledge-unit")), ("id", Some(id))], "id") == id
    ensures Words(AttrText([("class", Some("knowledge-unit")), ("id", Some(id))], "class"))
            == ["knowledge-unit"]
  {
    var attrs: seq<Attr> := [("class", Some("knowledge-unit")), ("id", Some(id))];
    assert attrs[..1] == [("class", Some("knowledge-unit"))];
    assert "id" != "class";
    assert Lookup(attrs, "class") == Lookup(attrs[..1], "class");
    WordsOfWord("knowledge-unit");
  }

  /** A properly nested `<section class="knowledge-unit" id=...>` is accepted. */
  lemma WellFormedSectionAccepted(id: string, kids: seq<Node>)
    requires id != ""
    requires forall k :: k in kids ==> WellFormed(k)
    ensures Verdict(Tokens(Serialize(
              Element("section", [("class", Some("knowledge-unit")), ("id", Some(id))], kids))))
            == (true, "")
  {
    var attrs: seq<Attr> := [("class", Some("knowledge-unit")), ("id", Some(id))];
    var n := Element("section", attrs, kids);
    var ts := Serialize(n);
    assert WellFormed(n) by {
      assert "section" !in SelfClosingTags;
    }
    NestedIsNeutral(Initial, n);
    assert ts[0] == StartTag("section", attrs);
    FirstNamedStartIs(ts, 0);
    RootFromFirstStart(ts);
    SectionAttrs(id);
    var st := FeedAll(Initial, ts);
    assert st.rootTag == "section" && st.rootId == id;
    assert st.rootClasses == ["knowledge-unit"];
    assert st.tagStack == [] && st.unclosedTags == [];
    assert Accepted(CloseState(st));
  }
}
