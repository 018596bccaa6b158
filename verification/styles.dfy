/** The style catalog read from the style file, the style list shown to the
    user, and `get_style_block`, which normalises a catalog entry into a prompt,
    a one-sentence description and the few-shot examples. */
module Styles {
  import opened Base
  import opened PyStr

  /** The key that holds the shared settings rather than a style. */
  const MetaKey: string := "_meta"

  /** One few-shot example of the style file; either key may be missing. */
  datatype Example = Example(thought: Option<string>, line: Option<string>)

  /** The value stored under one key of the style file. Only the keys the page
      reads are kept: `prompt` and `examples` of a style, `system_prefix` of the
      `_meta` entry. A legacy entry that is not an object is kept as the text
      Python's `str()` gives for it. */
  datatype Block =
    | Dict(prompt: Option<string>, examples: Option<seq<Example>>, systemPrefix: Option<string>)
    | Scalar(text: string)

  /** The loaded style file: its keys in insertion order and the entry of each. */
  datatype Catalog = Catalog(keys: seq<string>, blocks: map<string, Block>)

  predicate Distinct(s: seq<string>) {
    forall i, j :: 0 <= i < j < |s| ==> s[i] != s[j]
  }

  /** What a Python dict guarantees: each key once, and exactly the keys that
      have an entry. */
  predicate Valid(c: Catalog) {
    Distinct(c.keys) && c.blocks.Keys == set k | k in c.keys
  }

  /** The two ways subscripting the catalog raises: a missing key, or
      subscripting an entry that is not an object. */
  datatype LookupError = KeyError(key: string) | NotSubscriptable(key: string)

  /** `get_style_block`'s result: `(prompt, desc, examples)`. */
  datatype StyleBlock = StyleBlock(prompt: string, desc: string, examples: seq<Example>)

  /** `style_names`: the catalog keys in order, without `_meta`. */
  function StyleNames(keys: seq<string>): (names: seq<string>)
    ensures MetaKey !in names
    ensures forall k :: k in names <==> k in keys && k != MetaKey
  {
    if keys == [] then []
    else (if keys[0] == MetaKey then [] else [keys[0]]) + StyleNames(keys[1..])
  }

  /** The style list of a concatenation is the concatenation of the style lists:
      the filter keeps the relative order of the keys. */
  lemma {:induction false} StyleNamesAppend(a: seq<string>, b: seq<string>)
    ensures StyleNames(a + b) == StyleNames(a) + StyleNames(b)
  {
    if a != [] {
      assert (a + b)[0] == a[0];
      assert (a + b)[1..] == a[1..] + b;
      StyleNamesAppend(a[1..], b);
    } else {
      assert a + b == b;
    }
  }

  /** Keys other than `_meta` pass through unchanged and in order. */
  lemma {:induction false} StyleNamesWithoutMeta(keys: seq<string>)
    requires MetaKey !in keys
    ensures StyleNames(keys) == keys
  {
    if keys != [] {
      assert keys[0] in keys;
      StyleNamesWithoutMeta(keys[1..]);
    }
  }

  /** A catalog whose `_meta` entry sits between the styles `a` and `b` lists
      exactly `a` followed by `b`. */
  lemma StyleNamesDropMeta(a: seq<string>, b: seq<string>)
    requires MetaKey !in a && MetaKey !in b
    ensures StyleNames(a + [MetaKey] + b) == a + b
  {
    StyleNamesAppend(a + [MetaKey], b);
    StyleNamesAppend(a, [MetaKey]);
    assert StyleNames([MetaKey]) == [] by {
      assert [MetaKey][1..] == [];
    }
    StyleNamesWithoutMeta(a);
    StyleNamesWithoutMeta(b);
    assert a + [] == a;
  }

  /** Distinct keys give a style list without repeats, so each style other
      than `_meta` is listed exactly once. */
  lemma {:induction false} StyleNamesDistinct(keys: seq<string>)
    requires Distinct(keys)
    ensures Distinct(StyleNames(keys))
  {
    if keys != [] {
      var rest := keys[1..];
      assert Distinct(rest) by {
        forall i, j | 0 <= i < j < |rest| ensures rest[i] != rest[j] {
          assert rest[i] == keys[i + 1] && rest[j] == keys[j + 1];
        }
      }
      StyleNamesDistinct(rest);
      assert keys[0] !in rest by {
        forall i | 0 <= i < |rest| ensures rest[i] != keys[0] {
          assert rest[i] == keys[i + 1];
        }
      }
    }
  }

  /** Every listed style of a valid catalog resolves to an entry, so choosing
      from the list never raises. */
  lemma StyleNamesResolve(c: Catalog, name: string)
    requires Valid(c) && name in StyleNames(c.keys)
    ensures GetStyleBlock(c, name).Ok?
  {
  }

  lemma SliceAvoids(s: string, i: nat, j: nat, c: char)
    requires i <= j <= |s| && c !in s
    ensures c !in s[i..j]
  {
    assert forall k :: 0 <= k < j - i ==> s[i..j][k] == s[i + k];
  }

  /** The description shown under the style picker: the first `.`-delimited
      sentence of the prompt, stripped, or nothing for an empty prompt. */
  function Describe(prompt: string): (desc: string)
    ensures '.' !in desc
    ensures Stripped(desc)
    ensures prompt == [] ==> desc == []
  {
    if prompt == [] then []
    else
      var first := BeforeFirst(prompt, '.');
      if Strip(first) == [] then []
      else
        SliceAvoids(first, Lead(first), End(first), '.');
        Strip(first)
  }

  /** `split(sep)[0]` of a string whose first `sep` follows `a` is `a`. */
  lemma {:induction false} BeforeFirstSplit(a: string, sep: char, b: string)
    requires sep !in a
    ensures BeforeFirst(a + [sep] + b, sep) == a
  {
    if a != [] {
      assert (a + [sep] + b)[1..] == a[1..] + [sep] + b;
      BeforeFirstSplit(a[1..], sep, b);
    }
  }

  /** `split(sep)[0]` of a string without `sep` is the whole string. */
  lemma {:induction false} BeforeFirstAbsent(s: string, sep: char)
    requires sep !in s
    ensures BeforeFirst(s, sep) == s
  {
    if s != [] {
      assert s[0] in s;
      BeforeFirstAbsent(s[1..], sep);
    }
  }

  /** The description of a prompt `a.b`, where `a` holds no `.`, is `a` stripped:
      the first sentence. */
  lemma DescribeFirstSentence(a: string, b: string)
    requires '.' !in a
    ensures Describe(a + "." + b) == Strip(a)
  {
    BeforeFirstSplit(a, '.', b);
  }

  /** A prompt without a `.` is described by the whole prompt, stripped. */
  lemma DescribeOneSentence(prompt: string)
    requires '.' !in prompt
    ensures Describe(prompt) == Strip(prompt)
  {
    BeforeFirstAbsent(prompt, '.');
  }

  /** `get_style_block`: an object entry gives its `prompt` (default empty)
      and `examples` (default none); any other entry is the prompt itself, with
      no examples. A missing style raises `KeyError`. */
  function GetStyleBlock(c: Catalog, name: string): (r: Result<StyleBlock, LookupError>)
    ensures r.Ok? <==> name in c.blocks
    ensures r.Err? ==> r.error == KeyError(name)
    ensures r.Ok? ==>
      match c.blocks[name]
      case Dict(p, exs, _) => r.value.prompt == p.GetOr([]) && r.value.examples == exs.GetOr([])
      case Scalar(text) => r.value.prompt == text && r.value.examples == []
    ensures r.Ok? ==> r.value.desc == Describe(r.value.prompt)
  {
    if name !in c.blocks then Err(KeyError(name))
    else
      var (prompt, examples) :=
        match c.blocks[name]
        case Dict(p, exs, _) => (p.GetOr([]), exs.GetOr([]))
        case Scalar(text) => (text, []);
      Ok(StyleBlock(prompt, Describe(prompt), examples))
  }

  /** `modes["_meta"]["system_prefix"]`: the shared system prompt, or the error
      the subscripts raise. */
  function SystemPrefix(c: Catalog): (r: Result<string, LookupError>)
    ensures r.Ok? <==> MetaKey in c.blocks && c.blocks[MetaKey].Dict? && c.blocks[MetaKey].systemPrefix.Some?
    ensures r.Ok? ==> r.value == c.blocks[MetaKey].systemPrefix.value
    ensures MetaKey !in c.blocks ==> r == Err(KeyError(MetaKey))
    ensures MetaKey in c.blocks && c.blocks[MetaKey].Scalar? ==> r == Err(NotSubscriptable(MetaKey))
    ensures MetaKey in c.blocks && c.blocks[MetaKey].Dict? && c.blocks[MetaKey].systemPrefix.None? ==>
      r == Err(KeyError("system_prefix"))
  {
    if MetaKey !in c.blocks then Err(KeyError(MetaKey))
    else
      match c.blocks[MetaKey]
      case Scalar(_) => Err(NotSubscriptable(MetaKey))
      case Dict(_, _, prefix) =>
        if prefix.Some? then Ok(prefix.value) else Err(KeyError("system_prefix"))
  }
}
