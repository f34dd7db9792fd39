/**
 The type-tag parser: total on every string, and the inverse of canonical rendering
 on exactly the tags it supports.
 */
module TypeTags {
  import opened Prelude

  datatype Tag =
    | Bool | U8 | U16 | U32 | U64 | U128 | U256 | Address | Signer
    | Vector(elem: Tag)
    | Struct(address: nat, mod: string, name: string, params: seq<Tag>)

  /** Address parsing and printing, and the identifier check. */
  datatype Env = Env(parseAddress: string -> Option<nat>, renderAddress: nat -> string, ident: string -> bool)

  /** White space as `trim` understands it. */
  predicate Space(c: char) {
    || '\U{9}' <= c <= '\U{D}' || c == ' ' || c == '\U{85}' || c == '\U{A0}' || c == '\U{1680}'
    || '\U{2000}' <= c <= '\U{200A}' || c == '\U{2028}' || c == '\U{2029}' || c == '\U{202F}'
    || c == '\U{205F}' || c == '\U{3000}'
  }

  predicate Marker(c: char) {
    c == ':' || c == '<' || c == '>' || c == ','
  }

  /** Non-empty, without white space and without the characters the syntax uses. */
  predicate Word(s: string) {
    s != "" && forall i :: 0 <= i < |s| ==> !Space(s[i]) && !Marker(s[i])
  }

  ghost predicate Faithful(env: Env) {
    && (forall a: nat :: Word(env.renderAddress(a)) && env.parseAddress(env.renderAddress(a)) == Some(a))
    && (forall s :: env.ident(s) ==> Word(s))
  }

  // ---------------------------------------------------------------------------
  // Text
  // ---------------------------------------------------------------------------

  function TrimStart(s: string): (r: string)
    ensures |r| <= |s|
  {
    if s != "" && Space(s[0]) then TrimStart(s[1..]) else s
  }

  function TrimEnd(s: string): (r: string)
    ensures |r| <= |s|
  {
    if s != "" && Space(s[|s| - 1]) then TrimEnd(s[..|s| - 1]) else s
  }

  function Trim(s: string): (r: string)
    ensures |r| <= |s|
  {
    TrimEnd(TrimStart(s))
  }

  /** Text that trimming leaves alone. */
  predicate Tidy(s: string) {
    s != "" && !Space(s[0]) && !Space(s[|s| - 1])
  }

  lemma {:induction false} TrimTidy(blanks: string, s: string)
    requires Tidy(s) && forall i :: 0 <= i < |blanks| ==> Space(blanks[i])
    ensures Trim(blanks + s) == s
  {
    if blanks == "" {
      assert blanks + s == s;
    } else {
      assert (blanks + s)[1..] == blanks[1..] + s;
      TrimTidy(blanks[1..], s);
    }
  }

  /** Cuts a string at its first "::". */
  function Cut(s: string): (r: Option<(string, string)>)
    ensures r.Some? ==> |r.value.0| + |r.value.1| + 2 == |s|
  {
    if |s| < 2 then None
    else if s[0] == ':' && s[1] == ':' then Some(("", s[2..]))
    else
      match Cut(s[1..])
      case None => None
      case Some((head, tail)) => Some(([s[0]] + head, tail))
  }

  lemma {:induction false} CutAfter(word: string, rest: string)
    requires ':' !in word
    ensures Cut(word + "::" + rest) == Some((word, rest))
  {
    var s := word + "::" + rest;
    if word == "" {
      assert s[2..] == rest;
    } else {
      assert s[1..] == word[1..] + "::" + rest;
      CutAfter(word[1..], rest);
      assert [word[0]] + word[1..] == word;
    }
  }

  /** The position of the first '<', or the length. */
  function Open(s: string): (i: nat)
    ensures i <= |s| && (i < |s| ==> s[i] == '<') && forall k :: 0 <= k < i ==> s[k] != '<'
  {
    if s == "" || s[0] == '<' then 0 else 1 + Open(s[1..])
  }

  /** The parts of a string between its commas outside brackets, trimmed; `current` is the part in progress. */
  function SplitTop(s: string, depth: nat, current: string): (r: seq<string>)
    ensures forall i :: 0 <= i < |r| ==> |r[i]| <= |s| + |current|
  {
    if s == "" then [Trim(current)]
    else if s[0] == '<' then SplitTop(s[1..], depth + 1, current + [s[0]])
    else if s[0] == '>' then SplitTop(s[1..], if depth == 0 then 0 else depth - 1, current + [s[0]])
    else if s[0] == ',' && depth == 0 then [Trim(current)] + SplitTop(s[1..], 0, "")
    else SplitTop(s[1..], depth, current + [s[0]])
  }

  /** The scanning loop: one pass with a bracket depth and the start of the part in progress. */
  method SplitTopLevelCommas(s: string) returns (parts: seq<string>)
    ensures parts == SplitTop(s, 0, "")
  {
    parts := [];
    var depth: nat, start := 0, 0;
    for i := 0 to |s|
      invariant 0 <= start <= i
      invariant parts + SplitTop(s[i..], depth, s[start..i]) == SplitTop(s, 0, "")
    {
      assert s[i..][1..] == s[i + 1..];
      assert s[start..i] + [s[i]] == s[start..i + 1];
      match s[i]
      case '<' => depth := depth + 1;
      case '>' => depth := if depth == 0 then 0 else depth - 1;
      case ',' =>
        if depth == 0 {
          parts := parts + [Trim(s[start..i])];
          start := i + 1;
          assert s[start..i + 1] == "";
        }
      case _ =>
    }
    assert s[|s|..] == "" && s[start..|s|] == s[start..];
    parts := parts + [Trim(s[start..])];
  }

  // ---------------------------------------------------------------------------
  // The parser
  // ---------------------------------------------------------------------------

  function Primitive(s: string): Option<Tag> {
    if s == "bool" then Some(Bool)
    else if s == "u8" then Some(U8)
    else if s == "u64" then Some(U64)
    else if s == "u128" then Some(U128)
    else if s == "address" then Some(Address)
    else None
  }

  /** The pieces of a struct name: address, module, name and the text between the brackets, if any. */
  datatype Pieces = Pieces(address: string, mod: string, name: string, generics: Option<string>)

  /** The part after the second "::": a name, or a name and something between brackets. */
  function LastPieces(address: string, mod: string, last: string): (r: Option<Pieces>)
    ensures r.Some? && r.value.generics.Some? ==> |r.value.generics.value| <= |last|
  {
    var rest := Trim(last);
    var i := Open(rest);
    if i == |rest| then Some(Pieces(Trim(address), Trim(mod), rest, None))
    else if rest[|rest| - 1] != '>' || i + 1 >= |rest| then None
    else Some(Pieces(Trim(address), Trim(mod), Trim(rest[..i]), Some(rest[i + 1..|rest| - 1])))
  }

  function StructPieces(s: string): (r: Option<Pieces>)
    ensures r.Some? && r.value.generics.Some? ==> |r.value.generics.value| < |s|
  {
    match Cut(s)
    case None => None
    case Some((address, more)) =>
      match Cut(more)
      case None => None
      case Some((mod, last)) => LastPieces(address, mod, last)
  }

  function Parse(env: Env, text: string): Option<Tag>
    decreases |text|, 0, 0
  {
    var s := Trim(text);
    if Primitive(s).Some? then Primitive(s)
    else if "vector<" <= s && s[|s| - 1] == '>' && |s| >= 8 then
      match Parse(env, s[7..|s| - 1])
      case None => None
      case Some(t) => Some(Vector(t))
    else
      match StructPieces(s)
      case None => None
      case Some(p) =>
        var address := env.parseAddress(p.address);
        if address.None? || !env.ident(p.mod) || !env.ident(p.name) then None
        else if p.generics.None? then Some(Struct(address.value, p.mod, p.name, []))
        else
          var generics := p.generics.value;
          match ParseAll(env, SplitTop(generics, 0, ""), |generics|)
          case None => None
          case Some(params) => Some(Struct(address.value, p.mod, p.name, params))
  }

  /** Parses every non-empty part; `bound` is the length none of them exceeds. */
  function ParseAll(env: Env, parts: seq<string>, bound: nat): Option<seq<Tag>>
    requires forall i :: 0 <= i < |parts| ==> |parts[i]| <= bound
    decreases bound, 1, |parts|
  {
    if parts == [] then Some([])
    else if parts[0] == "" then ParseAll(env, parts[1..], bound)
    else
      match Parse(env, parts[0])
      case None => None
      case Some(t) =>
        match ParseAll(env, parts[1..], bound)
        case None => None
        case Some(rest) => Some([t] + rest)
  }

  // ---------------------------------------------------------------------------
  // Rendering
  // ---------------------------------------------------------------------------

  function Render(env: Env, sep: string, t: Tag): string
    decreases t
  {
    match t
    case Bool => "bool"
    case U8 => "u8"
    case U16 => "u16"
    case U32 => "u32"
    case U64 => "u64"
    case U128 => "u128"
    case U256 => "u256"
    case Address => "address"
    case Signer => "signer"
    case Vector(elem) => "vector<" + Render(env, sep, elem) + ">"
    case Struct(address, mod, name, params) =>
      env.renderAddress(address) + "::"
      + (mod + "::" + NameAndGenerics(name, RenderAll(env, sep, params), params != []))
  }

  function NameAndGenerics(name: string, generics: string, generic: bool): string {
    if generic then name + "<" + generics + ">" else name
  }

  function RenderAll(env: Env, sep: string, ts: seq<Tag>): string
    decreases ts
  {
    if ts == [] then ""
    else if |ts| == 1 then Render(env, sep, ts[0])
    else Render(env, sep, ts[0]) + sep + RenderAll(env, sep, ts[1..])
  }

  /** The identifiers of a tag are identifiers. */
  ghost predicate WellFormed(env: Env, t: Tag)
    decreases t
  {
    match t
    case Vector(elem) => WellFormed(env, elem)
    case Struct(_, mod, name, params) =>
      env.ident(mod) && env.ident(name) && forall i :: 0 <= i < |params| ==> WellFormed(env, params[i])
    case _ => true
  }

  /** The tags the parser knows, all the way down. */
  predicate Supported(t: Tag)
    decreases t
  {
    match t
    case Vector(elem) => Supported(elem)
    case Struct(_, _, _, params) => forall i :: 0 <= i < |params| ==> Supported(params[i])
    case _ => t.Bool? || t.U8? || t.U64? || t.U128? || t.Address?
  }

  /** A comma, and any amount of white space after it. */
  ghost predicate Separator(sep: string) {
    sep != "" && sep[0] == ',' && forall i :: 0 < i < |sep| ==> Space(sep[i])
  }

  // ---------------------------------------------------------------------------
  // Parsing what was rendered
  // ---------------------------------------------------------------------------

  lemma RenderTidy(env: Env, sep: string, t: Tag)
    requires Faithful(env) && WellFormed(env, t)
    ensures Tidy(Render(env, sep, t))
  {
    if t.Struct? {
      var a := env.renderAddress(t.address);
      assert Word(a) && Word(t.name);
      var last := NameAndGenerics(t.name, RenderAll(env, sep, t.params), t.params != []);
      TidyEnds(a, "::" + (t.mod + "::" + last), last);
    }
  }

  lemma TidyEnds(first: string, rest: string, last: string)
    requires first != "" && !Space(first[0])
    requires last != "" && |last| <= |rest| && rest[|rest| - |last|..] == last && !Space(last[|last| - 1])
    ensures Tidy(first + rest)
  {
    assert rest[|rest| - 1] == last[|last| - 1];
  }

  ghost predicate Flat(s: string) {
    forall i :: 0 <= i < |s| ==> s[i] != '<' && s[i] != '>' && s[i] != ','
  }

  lemma {:induction false} AbsorbFlat(w: string, rest: string, depth: nat, current: string)
    requires Flat(w)
    ensures SplitTop(w + rest, depth, current) == SplitTop(rest, depth, current + w)
  {
    if w == "" {
      assert w + rest == rest && current + w == current;
    } else {
      assert (w + rest)[1..] == w[1..] + rest;
      AbsorbFlat(w[1..], rest, depth, current + [w[0]]);
      assert current + [w[0]] + w[1..] == current + w;
    }
  }

  /** A text that, at this bracket depth or deeper, is always part of one part. */
  ghost predicate Absorbed(w: string, least: nat) {
    forall rest, depth: nat, current ::
      depth >= least ==> SplitTop(w + rest, depth, current) == SplitTop(rest, depth, current + w)
  }

  lemma FlatIsAbsorbed(w: string)
    requires Flat(w)
    ensures Absorbed(w, 0)
  {
    forall rest, depth: nat, current
      ensures SplitTop(w + rest, depth, current) == SplitTop(rest, depth, current + w)
    {
      AbsorbFlat(w, rest, depth, current);
    }
  }

  lemma CommaIsAbsorbed()
    ensures Absorbed(",", 1)
  {
    forall rest, depth: nat, current | depth >= 1
      ensures SplitTop("," + rest, depth, current) == SplitTop(rest, depth, current + ",")
    {
      assert ("," + rest)[1..] == rest;
    }
  }

  lemma ConcatIsAbsorbed(a: string, b: string, least: nat)
    requires Absorbed(a, least) && Absorbed(b, least)
    ensures Absorbed(a + b, least)
  {
    forall rest, depth: nat, current | depth >= least
      ensures SplitTop((a + b) + rest, depth, current) == SplitTop(rest, depth, current + (a + b))
    {
      assert (a + b) + rest == a + (b + rest);
      assert current + (a + b) == (current + a) + b;
    }
  }

  lemma BracketsAreAbsorbed(inside: string)
    requires Absorbed(inside, 1)
    ensures Absorbed("<" + inside + ">", 0)
  {
    forall rest, depth: nat, current
      ensures SplitTop(("<" + inside + ">") + rest, depth, current)
              == SplitTop(rest, depth, current + ("<" + inside + ">"))
    {
      var tail := ">" + rest;
      assert ("<" + inside + ">") + rest == "<" + (inside + tail);
      assert ("<" + (inside + tail))[1..] == inside + tail;
      assert SplitTop(inside + tail, depth + 1, current + "<") == SplitTop(tail, depth + 1, current + "<" + inside);
      assert tail[1..] == rest;
      assert current + "<" + inside + ">" == current + ("<" + inside + ">");
    }
  }

  lemma Deeper(w: string)
    requires Absorbed(w, 0)
    ensures Absorbed(w, 1)
  {
  }

  lemma WordIsFlat(s: string)
    requires Word(s)
    ensures Flat(s) && ':' !in s
  {
  }

  lemma SeparatorIsAbsorbed(sep: string)
    requires Separator(sep)
    ensures Absorbed(sep, 1)
  {
    CommaIsAbsorbed();
    FlatIsAbsorbed(sep[1..]);
    Deeper(sep[1..]);
    ConcatIsAbsorbed(",", sep[1..], 1);
    assert sep == "," + sep[1..];
  }

  /** The text of a struct before its type arguments. */
  function Qualified(env: Env, t: Tag): string
    requires t.Struct?
  {
    env.renderAddress(t.address) + "::" + (t.mod + "::" + t.name)
  }

  lemma RenderStruct(env: Env, sep: string, t: Tag)
    requires t.Struct?
    ensures Render(env, sep, t)
            == if t.params == [] then Qualified(env, t)
               else Qualified(env, t) + ("<" + RenderAll(env, sep, t.params) + ">")
  {
  }

  lemma QualifiedIsAbsorbed(env: Env, t: Tag)
    requires Faithful(env) && t.Struct? && env.ident(t.mod) && env.ident(t.name)
    ensures Absorbed(Qualified(env, t), 0)
  {
    WordIsFlat(env.renderAddress(t.address));
    WordIsFlat(t.mod);
    WordIsFlat(t.name);
    FlatIsAbsorbed(Qualified(env, t));
  }

  lemma VectorIsAbsorbed(inside: string)
    requires Absorbed(inside, 0)
    ensures Absorbed("vector<" + inside + ">", 0)
  {
    Deeper(inside);
    BracketsAreAbsorbed(inside);
    FlatIsAbsorbed("vector");
    ConcatIsAbsorbed("vector", "<" + inside + ">", 0);
    assert "vector<" + inside + ">" == "vector" + ("<" + inside + ">");
  }

  lemma PrimitiveIsAbsorbed(env: Env, sep: string, t: Tag)
    requires !t.Vector? && !t.Struct?
    ensures Absorbed(Render(env, sep, t), 0)
  {
    FlatIsAbsorbed(Render(env, sep, t));
  }

  /** A rendered tag is one part wherever it stands: its commas are inside brackets. */
  lemma {:induction false} TagIsAbsorbed(env: Env, sep: string, t: Tag)
    requires Faithful(env) && WellFormed(env, t) && Separator(sep)
    ensures Absorbed(Render(env, sep, t), 0)
    decreases t
  {
    match t
    case Vector(elem) =>
      TagIsAbsorbed(env, sep, elem);
      VectorIsAbsorbed(Render(env, sep, elem));
    case Struct(address, mod, name, params) =>
      QualifiedIsAbsorbed(env, t);
      RenderStruct(env, sep, t);
      if params != [] {
        var inside := RenderAll(env, sep, params);
        ListIsAbsorbed(env, sep, params);
        BracketsAreAbsorbed(inside);
        ConcatIsAbsorbed(Qualified(env, t), "<" + inside + ">", 0);
      }
    case _ => PrimitiveIsAbsorbed(env, sep, t);
  }

  lemma {:induction false} ListIsAbsorbed(env: Env, sep: string, ts: seq<Tag>)
    requires Faithful(env) && Separator(sep)
    requires forall i :: 0 <= i < |ts| ==> WellFormed(env, ts[i])
    ensures Absorbed(RenderAll(env, sep, ts), 1)
    decreases ts
  {
    if ts == [] {
      FlatIsAbsorbed("");
      Deeper("");
    } else {
      var r := Render(env, sep, ts[0]);
      TagIsAbsorbed(env, sep, ts[0]);
      Deeper(r);
      if |ts| > 1 {
        ListIsAbsorbed(env, sep, ts[1..]);
        SeparatorIsAbsorbed(sep);
        ConcatIsAbsorbed(r, sep, 1);
        ConcatIsAbsorbed(r + sep, RenderAll(env, sep, ts[1..]), 1);
      }
    }
  }

  function Renders(env: Env, sep: string, ts: seq<Tag>): (r: seq<string>)
    ensures |r| == |ts| && forall i :: 0 <= i < |ts| ==> r[i] == Render(env, sep, ts[i])
  {
    seq(|ts|, i requires 0 <= i < |ts| => Render(env, sep, ts[i]))
  }

  lemma RendersCons(env: Env, sep: string, ts: seq<Tag>)
    requires ts != []
    ensures Renders(env, sep, ts) == [Render(env, sep, ts[0])] + Renders(env, sep, ts[1..])
  {
  }

  ghost predicate Blank(s: string) {
    forall i :: 0 <= i < |s| ==> Space(s[i])
  }

  lemma SplitLast(blanks: string, r: string)
    requires Absorbed(r, 0) && Tidy(r) && Blank(blanks)
    ensures SplitTop(r, 0, blanks) == [r]
  {
    TrimTidy(blanks, r);
    assert r + "" == r;
  }

  lemma SplitFirst(blanks: string, r: string, sep: string, more: string)
    requires Absorbed(r, 0) && Tidy(r) && Blank(blanks) && Separator(sep)
    ensures SplitTop(r + sep + more, 0, blanks) == [r] + SplitTop(more, 0, sep[1..])
  {
    TrimTidy(blanks, r);
    assert r + sep + more == r + (sep + more);
    assert (sep + more)[1..] == sep[1..] + more;
    AbsorbFlat(sep[1..], more, 0, "");
    assert "" + sep[1..] == sep[1..];
  }

  /** Splitting a rendered list gives back the rendered elements. */
  lemma {:induction false} SplitRendered(env: Env, sep: string, ts: seq<Tag>, blanks: string)
    requires Faithful(env) && Separator(sep) && ts != [] && Blank(blanks)
    requires forall i :: 0 <= i < |ts| ==> WellFormed(env, ts[i])
    ensures SplitTop(RenderAll(env, sep, ts), 0, blanks) == Renders(env, sep, ts)
    decreases |ts|
  {
    var r := Render(env, sep, ts[0]);
    RenderTidy(env, sep, ts[0]);
    TagIsAbsorbed(env, sep, ts[0]);
    assert Blank(sep[1..]);
    if |ts| == 1 {
      SplitLast(blanks, r);
    } else {
      SplitFirst(blanks, r, sep, RenderAll(env, sep, ts[1..]));
      SplitRendered(env, sep, ts[1..], sep[1..]);
      RendersCons(env, sep, ts);
    }
  }

  lemma {:induction false} CutNone(s: string)
    requires ':' !in s
    ensures Cut(s) == None
  {
    if |s| >= 2 {
      CutNone(s[1..]);
    }
  }

  lemma {:induction false} OpenAt(name: string, rest: string)
    requires '<' !in name
    ensures Open(name + "<" + rest) == |name|
  {
    var s := name + "<" + rest;
    if name != "" {
      assert s[1..] == name[1..] + "<" + rest;
      OpenAt(name[1..], rest);
    }
  }

  lemma {:induction false} OpenNone(name: string)
    requires '<' !in name
    ensures Open(name) == |name|
  {
    if name != "" {
      OpenNone(name[1..]);
    }
  }

  lemma TrimmedAlready(s: string)
    requires Tidy(s)
    ensures Trim(s) == s
  {
    TrimTidy("", s);
    assert "" + s == s;
  }

  lemma PlainName(address: string, mod: string, name: string)
    requires Word(address) && Word(mod) && Word(name)
    ensures LastPieces(address, mod, name) == Some(Pieces(address, mod, name, None))
  {
    TrimmedAlready(address);
    TrimmedAlready(mod);
    TrimmedAlready(name);
    OpenNone(name);
  }

  lemma GenericName(address: string, mod: string, name: string, generics: string)
    requires Word(address) && Word(mod) && Word(name)
    ensures LastPieces(address, mod, name + "<" + generics + ">") == Some(Pieces(address, mod, name, Some(generics)))
  {
    var last := name + "<" + generics + ">";
    TrimmedAlready(address);
    TrimmedAlready(mod);
    TrimmedAlready(name);
    TrimmedAlready(last);
    OpenAt(name, generics + ">");
    assert last == name + "<" + (generics + ">");
    assert last[..|name|] == name;
    assert last[|name| + 1..|last| - 1] == generics;
  }

  lemma CutTwice(address: string, mod: string, last: string)
    requires Word(address) && Word(mod)
    ensures StructPieces(address + "::" + (mod + "::" + last)) == LastPieces(address, mod, last)
  {
    CutAfter(address, mod + "::" + last);
    CutAfter(mod, last);
  }

  /** A struct name is neither a primitive nor a vector. */
  lemma StructIsNeither(address: string, rest: string)
    requires Word(address)
    ensures Primitive(address + "::" + rest).None? && !("vector<" <= address + "::" + rest)
  {
    var s := address + "::" + rest;
    assert s[|address|] == ':';
    assert forall i :: 0 <= i < |address| ==> s[i] == address[i];
    var vector := "vector<";
    assert vector[6] == '<' && forall i :: 0 <= i < 7 ==> vector[i] != ':';
    assert |address| >= 7 ==> s[6] != vector[6];
  }

  /** Taking a rendered struct apart gives back the pieces it was put together from. */
  lemma PiecesOf(env: Env, sep: string, t: Tag)
    requires Faithful(env) && WellFormed(env, t) && t.Struct?
    ensures StructPieces(Render(env, sep, t))
            == Some(Pieces(env.renderAddress(t.address), t.mod, t.name,
                           if t.params == [] then None else Some(RenderAll(env, sep, t.params))))
    ensures Primitive(Render(env, sep, t)).None? && !("vector<" <= Render(env, sep, t))
  {
    var a := env.renderAddress(t.address);
    var generics := RenderAll(env, sep, t.params);
    var last := NameAndGenerics(t.name, generics, t.params != []);
    assert Word(a) && Word(t.mod) && Word(t.name);
    CutTwice(a, t.mod, last);
    StructIsNeither(a, t.mod + "::" + last);
    if t.params == [] {
      PlainName(a, t.mod, t.name);
    } else {
      GenericName(a, t.mod, t.name, generics);
    }
  }

  // ---------------------------------------------------------------------------
  // The round trip
  // ---------------------------------------------------------------------------

  function Expected(t: Tag): Option<Tag> {
    if Supported(t) then Some(t) else None
  }

  lemma VectorText(inside: string)
    ensures var s := "vector<" + inside + ">";
            && "vector<" <= s && s[|s| - 1] == '>' && |s| >= 8 && s[7..|s| - 1] == inside
            && Primitive(s).None? && Trim(s) == s
  {
    var s := "vector<" + inside + ">";
    assert s[6] == '<';
    TrimmedAlready(s);
  }

  lemma UnknownPrimitive(env: Env, s: string)
    requires Tidy(s) && ':' !in s && Primitive(s).None? && !("vector<" <= s)
    ensures Parse(env, s) == None
  {
    TrimmedAlready(s);
    CutNone(s);
  }

  lemma PrimitiveRoundTrip(env: Env, sep: string, t: Tag)
    requires !t.Vector? && !t.Struct?
    ensures Parse(env, Render(env, sep, t)) == Expected(t)
  {
    var s := Render(env, sep, t);
    if Supported(t) {
      TrimmedAlready(s);
    } else {
      UnknownPrimitive(env, s);
    }
  }

  lemma StructParse(env: Env, sep: string, t: Tag, params: Option<seq<Tag>>)
    requires Faithful(env) && WellFormed(env, t) && t.Struct?
    requires if t.params == [] then params == Some([])
             else var generics := RenderAll(env, sep, t.params);
                  ParseAll(env, SplitTop(generics, 0, ""), |generics|) == params
    ensures Parse(env, Render(env, sep, t))
            == if params.Some? then Some(Struct(t.address, t.mod, t.name, params.value)) else None
  {
    RenderTidy(env, sep, t);
    TrimmedAlready(Render(env, sep, t));
    PiecesOf(env, sep, t);
  }

  /**
   Parsing the rendering of a tag gives the tag back exactly when the parser supports
   every primitive in it, however deeply nested, and nothing otherwise.
   */
  lemma {:induction false} RoundTrip(env: Env, sep: string, t: Tag)
    requires Faithful(env) && Separator(sep) && WellFormed(env, t)
    ensures Parse(env, Render(env, sep, t)) == Expected(t)
    decreases t
  {
    match t
    case Vector(elem) =>
      RoundTrip(env, sep, elem);
      VectorText(Render(env, sep, elem));
    case Struct(address, mod, name, params) =>
      if params == [] {
        StructParse(env, sep, t, Some([]));
      } else {
        SplitRendered(env, sep, params, "");
        ListRoundTrip(env, sep, params, |RenderAll(env, sep, params)|);
        StructParse(env, sep, t, if Supported(t) then Some(params) else None);
      }
    case _ => PrimitiveRoundTrip(env, sep, t);
  }

  predicate Bounded(parts: seq<string>, bound: nat) {
    forall i :: 0 <= i < |parts| ==> |parts[i]| <= bound
  }

  lemma ParseCons(env: Env, first: string, rest: seq<string>, bound: nat)
    requires first != "" && |first| <= bound && Bounded(rest, bound)
    ensures Bounded([first] + rest, bound)
    ensures ParseAll(env, [first] + rest, bound)
            == match Parse(env, first)
               case None => None
               case Some(t) => (match ParseAll(env, rest, bound) case None => None case Some(ts) => Some([t] + ts))
  {
    assert ([first] + rest)[1..] == rest;
  }

  predicate AllSupported(ts: seq<Tag>) {
    forall i :: 0 <= i < |ts| ==> Supported(ts[i])
  }

  lemma ParseFirst(env: Env, first: string, rest: seq<string>, bound: nat, t: Tag, ts: seq<Tag>)
    requires first != "" && |first| <= bound && Bounded(rest, bound)
    requires Parse(env, first) == Expected(t)
    requires ParseAll(env, rest, bound) == if AllSupported(ts) then Some(ts) else None
    ensures Bounded([first] + rest, bound)
    ensures ParseAll(env, [first] + rest, bound) == if AllSupported([t] + ts) then Some([t] + ts) else None
  {
    ParseCons(env, first, rest, bound);
    assert ([t] + ts)[0] == t && ([t] + ts)[1..] == ts;
    assert AllSupported([t] + ts) ==> forall i :: 0 <= i < |ts| ==> ts[i] == ([t] + ts)[i + 1];
  }

  lemma {:induction false} ListRoundTrip(env: Env, sep: string, ts: seq<Tag>, bound: nat)
    requires Faithful(env) && Separator(sep)
    requires forall i :: 0 <= i < |ts| ==> WellFormed(env, ts[i])
    requires Bounded(Renders(env, sep, ts), bound)
    ensures ParseAll(env, Renders(env, sep, ts), bound) == if AllSupported(ts) then Some(ts) else None
    decreases ts
  {
    if ts != [] {
      var first, rest := Render(env, sep, ts[0]), Renders(env, sep, ts[1..]);
      RendersCons(env, sep, ts);
      BoundedParts(first, rest, bound);
      ListRoundTrip(env, sep, ts[1..], bound);
      RenderTidy(env, sep, ts[0]);
      RoundTrip(env, sep, ts[0]);
      ParseFirst(env, first, rest, bound, ts[0], ts[1..]);
      assert [ts[0]] + ts[1..] == ts;
    }
  }

  lemma BoundedParts(first: string, rest: seq<string>, bound: nat)
    requires Bounded([first] + rest, bound)
    ensures |first| <= bound && Bounded(rest, bound)
  {
    var all := [first] + rest;
    assert all[0] == first && forall i :: 0 <= i < |rest| ==> rest[i] == all[i + 1];
  }

  // ---------------------------------------------------------------------------
  // Whatever is accepted
  // ---------------------------------------------------------------------------

  ghost predicate AllProper(env: Env, ts: seq<Tag>) {
    forall i :: 0 <= i < |ts| ==> WellFormed(env, ts[i]) && Supported(ts[i])
  }

  /** Any text that is accepted, however written, gives a tag of identifiers and supported primitives. */
  lemma {:induction false} ParsedIsProper(env: Env, text: string)
    requires Parse(env, text).Some?
    ensures WellFormed(env, Parse(env, text).value) && Supported(Parse(env, text).value)
    decreases |text|, 0, 0
  {
    var s := Trim(text);
    if Primitive(s).Some? {
    } else if "vector<" <= s && s[|s| - 1] == '>' && |s| >= 8 {
      ParsedIsProper(env, s[7..|s| - 1]);
    } else {
      var p := StructPieces(s).value;
      if p.generics.Some? {
        var generics := p.generics.value;
        ParsedAreProper(env, SplitTop(generics, 0, ""), |generics|);
      }
    }
  }

  lemma {:induction false} ParsedAreProper(env: Env, parts: seq<string>, bound: nat)
    requires Bounded(parts, bound) && ParseAll(env, parts, bound).Some?
    ensures AllProper(env, ParseAll(env, parts, bound).value)
    decreases bound, 1, |parts|
  {
    if parts != [] {
      if parts[0] == "" {
        ParsedAreProper(env, parts[1..], bound);
      } else {
        ParsedIsProper(env, parts[0]);
        ParsedAreProper(env, parts[1..], bound);
      }
    }
  }

  /** So rendering what was parsed and parsing it again changes nothing, whatever the text was. */
  lemma ParseIsStable(env: Env, sep: string, text: string)
    requires Faithful(env) && Separator(sep) && Parse(env, text).Some?
    ensures Parse(env, Render(env, sep, Parse(env, text).value)) == Parse(env, text)
  {
    ParsedIsProper(env, text);
    RoundTrip(env, sep, Parse(env, text).value);
  }
}
