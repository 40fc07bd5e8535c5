/** btf_dump_emit_type_decl: a type printed as a C declaration, and how the C
    declarator rules read that declaration back. */
module DumpDecl {
  import opened BtfWords

  datatype Qualifier = Volatile | Const | Restrict

  /** A type as the list of steps that build it, starting from the base type. */
  datatype Layer =
    | Base(id: nat)
    | Ptr
    | Qual(q: Qualifier)
    | Array(n: nat)
    | Func(params: seq<Param>)

  datatype Param = Param(name: nat, layers: seq<Layer>)

  /** What is printed.  `Dim` is a bracketed array size; a type or a name is one
      word; name 0 is the empty name and is never printed. */
  datatype Token =
    | Space | Star | Open | Close | Comma | Ellipsis
    | Dim(n: nat)
    | QualWord(q: Qualifier)
    | TypeWord(id: nat)
    | Name(name: nat)

  const VOID_LAYERS := [Base(0)]

  // ------------------------------------------------------------------ sizes

  ghost function Size(w: seq<Layer>): (n: nat)
    ensures w != [] ==> n > 0
  {
    if w == [] then 0 else LayerSize(w[0]) + Size(w[1..])
  }

  ghost function LayerSize(l: Layer): (n: nat)
    ensures n > 0
  {
    match l
    case Func(ps) => 1 + ParamsSize(ps)
    case _ => 1
  }

  ghost function ParamsSize(ps: seq<Param>): nat {
    if ps == [] then 0 else 1 + Size(ps[0].layers) + ParamsSize(ps[1..])
  }

  /** The steps that remain when qualifiers at the front are left out. */
  function DropQuals(w: seq<Layer>): (r: seq<Layer>)
    ensures |r| <= |w|
    ensures r != [] ==> !r[0].Qual?
  {
    if w != [] && w[0].Qual? then DropQuals(w[1..]) else w
  }

  lemma {:induction false} DropSize(w: seq<Layer>)
    ensures Size(DropQuals(w)) <= Size(w)
  {
    if w != [] && w[0].Qual? { DropSize(w[1..]); }
  }

  // ------------------------------------------------------- what the dumper prints

  function NameTokens(name: nat): seq<Token> {
    if name == 0 then [] else [Name(name)]
  }

  /** btf_dump_emit_name */
  function EmittedName(name: nat, lastWasPtr: bool): seq<Token> {
    (if name != 0 && !lastWasPtr then [Space] else []) + NameTokens(name)
  }

  /** The declarator for the steps after the base type, without spaces. */
  ghost function Declarator(w: seq<Layer>, name: nat): seq<Token>
    decreases Size(w), 0
  {
    if w == [] then NameTokens(name)
    else
      match w[0]
      case Base(_) => []
      case Ptr => [Star] + Declarator(w[1..], name)
      case Qual(q) => [QualWord(q)] + Declarator(w[1..], name)
      case Array(n) => (DropSize(w[1..]); Inner(DropQuals(w[1..]), name, true)) + [Dim(n)]
      case Func(ps) =>
        assert LayerSize(w[0]) == 1 + ParamsSize(ps);
        (DropSize(w[1..]); Inner(DropQuals(w[1..]), name, false)) + [Open] + ParamTokens(ps) + [Close]
  }

  /** The part of a declarator that an array size or a parameter list follows. */
  ghost function Inner(w: seq<Layer>, name: nat, ofArray: bool): seq<Token>
    decreases Size(w), 1
  {
    if w == [] || (ofArray && w[0].Array?) then Declarator(w, name)
    else [Open] + Declarator(w, name) + [Close]
  }

  /** A parameter list: `()` for a single void, `...` for a void at the end. */
  ghost function ParamTokens(ps: seq<Param>): seq<Token>
    decreases ParamsSize(ps), 1
  {
    if |ps| == 1 && ps[0].layers == VOID_LAYERS then [] else ListTokens(ps)
  }

  ghost function ListTokens(ps: seq<Param>): seq<Token>
    decreases ParamsSize(ps), 0
  {
    if ps == [] then []
    else if |ps| == 1 then ParamToken(ps[0], true)
    else ParamToken(ps[0], false) + [Comma] + ListTokens(ps[1..])
  }

  ghost function ParamToken(p: Param, last: bool): seq<Token>
    decreases Size(p.layers), 3
  {
    if last && p.layers == VOID_LAYERS then [Ellipsis] else Declaration(p.layers, p.name)
  }

  /** A whole declaration: qualifiers of the base type, the base type, the declarator. */
  ghost function Declaration(w: seq<Layer>, name: nat): seq<Token>
    decreases Size(w), 2
  {
    if w == [] || !w[0].Base? then []
    else QualTokens(w[1..]) + [TypeWord(w[0].id)] + (DropSize(w[1..]); Declarator(DropQuals(w[1..]), name))
  }

  /** The qualifiers at the front. */
  function QualTokens(w: seq<Layer>): seq<Token> {
    if w != [] && w[0].Qual? then [QualWord(w[0].q)] + QualTokens(w[1..]) else []
  }

  // ------------------------------------------ how C reads it (ISO C section 6.7.6)

  datatype Parse<T> = Fail | Read(value: T, rest: seq<Token>)

  /** A declarator read so far: what it adds to the base type, and the name declared. */
  datatype Decl = Decl(layers: seq<Layer>, name: nat)

  predicate StartsParams(ts: seq<Token>) {
    ts != [] && (ts[0].Close? || ts[0].Ellipsis? || ts[0].QualWord? || ts[0].TypeWord?)
  }

  /** declarator: pointers, each with its qualifiers, then a direct declarator. */
  function ReadDeclarator(ts: seq<Token>, afterPtr: bool): (r: Parse<Decl>)
    ensures r.Read? ==> |r.rest| <= |ts|
    decreases |ts|, 3
  {
    if ts != [] && ts[0].Star? then Under(Ptr, ReadDeclarator(ts[1..], true))
    else if ts != [] && ts[0].QualWord? && afterPtr then Under(Qual(ts[0].q), ReadDeclarator(ts[1..], true))
    else ReadDirect(ts)
  }

  function Under(l: Layer, r: Parse<Decl>): Parse<Decl> {
    match r
    case Fail => Fail
    case Read(d, rest) => Read(Decl([l] + d.layers, d.name), rest)
  }

  /** direct-declarator: a name, a declarator in parentheses, or nothing, then
      array sizes and parameter lists. */
  function ReadDirect(ts: seq<Token>): (r: Parse<Decl>)
    ensures r.Read? ==> |r.rest| <= |ts|
    decreases |ts|, 2
  {
    if ts != [] && ts[0].Name? then ReadSuffixes(ts[1..], Decl([], ts[0].name))
    else if ts != [] && ts[0].Open? && !StartsParams(ts[1..]) then
      match ReadDeclarator(ts[1..], false)
      case Read(d, rest) => if rest != [] && rest[0].Close? then ReadSuffixes(rest[1..], d) else Fail
      case Fail => Fail
    else ReadSuffixes(ts, Decl([], 0))
  }

  /** The last suffix is the one that applies to the base type first. */
  function ReadSuffixes(ts: seq<Token>, inner: Decl): (r: Parse<Decl>)
    ensures r.Read? ==> |r.rest| <= |ts|
    decreases |ts|, 1
  {
    if ts != [] && ts[0].Dim? then ReadSuffixes(ts[1..], Decl([Array(ts[0].n)] + inner.layers, inner.name))
    else if ts != [] && ts[0].Open? then
      match ReadParams(ts[1..])
      case Read(ps, rest) => ReadSuffixes(rest, Decl([Func(ps)] + inner.layers, inner.name))
      case Fail => Fail
    else Read(inner, ts)
  }

  /** The parameters up to and including the closing parenthesis. */
  function ReadParams(ts: seq<Token>): (r: Parse<seq<Param>>)
    ensures r.Read? ==> |r.rest| <= |ts|
    decreases |ts|, 6
  {
    if ts != [] && ts[0].Close? then Read([], ts[1..]) else ReadList(ts)
  }

  function ReadList(ts: seq<Token>): (r: Parse<seq<Param>>)
    ensures r.Read? ==> |r.rest| <= |ts|
    decreases |ts|, 5
  {
    if |ts| >= 2 && ts[0].Ellipsis? && ts[1].Close? then Read([Param(0, VOID_LAYERS)], ts[2..])
    else
      match ReadDeclaration(ts)
      case Fail => Fail
      case Read(p, rest) =>
        if rest != [] && rest[0].Close? then Read([p], rest[1..])
        else if rest != [] && rest[0].Comma? then
          match ReadList(rest[1..])
          case Read(ps, end) => Read([p] + ps, end)
          case Fail => Fail
        else Fail
  }

  /** Qualifiers, the base type, a declarator. */
  function ReadDeclaration(ts: seq<Token>): (r: Parse<Param>)
    ensures r.Read? ==> |r.rest| < |ts|
    decreases |ts|, 4
  {
    if ts == [] then Fail
    else if ts[0].QualWord? then
      match ReadDeclaration(ts[1..])
      case Read(p, rest) => if p.layers == [] then Fail
                            else Read(Param(p.name, [p.layers[0], Qual(ts[0].q)] + p.layers[1..]), rest)
      case Fail => Fail
    else if ts[0].TypeWord? then
      match ReadDeclarator(ts[1..], false)
      case Read(d, rest) => Read(Param(d.name, [Base(ts[0].id)] + d.layers), rest)
      case Fail => Fail
    else Fail
  }

  // ------------------------------------------------------------- the round trip

  /** What C keeps of a chain: qualifiers applied directly to an array or a
      function are lost, and so are the ways in which no parameters and a
      variable number of them are written down. */
  ghost function Kept(w: seq<Layer>): (r: seq<Layer>)
    decreases Size(w), 0
  {
    if w == [] then []
    else
      match w[0]
      case Array(n) => [w[0]] + (DropSize(w[1..]); Kept(DropQuals(w[1..])))
      case Func(ps) =>
        assert LayerSize(w[0]) == 1 + ParamsSize(ps);
        [Func(KeptParams(ps))] + (DropSize(w[1..]); Kept(DropQuals(w[1..])))
      case _ => [w[0]] + Kept(w[1..])
  }

  ghost function KeptParams(ps: seq<Param>): seq<Param>
    decreases ParamsSize(ps), 1
  {
    if |ps| == 1 && ps[0].layers == VOID_LAYERS then [] else KeptList(ps)
  }

  ghost function KeptList(ps: seq<Param>): seq<Param>
    decreases ParamsSize(ps), 0
  {
    if ps == [] then []
    else if |ps| == 1 && ps[0].layers == VOID_LAYERS then [Param(0, VOID_LAYERS)]
    else [Param(ps[0].name, Kept(ps[0].layers))] + KeptList(ps[1..])
  }

  /** A chain: a base type first, and nowhere else, in parameters as well. */
  ghost predicate Chain(w: seq<Layer>)
    decreases Size(w), 1
  {
    w != [] && w[0].Base? && Steps(w[1..])
  }

  ghost predicate Steps(w: seq<Layer>)
    decreases Size(w), 0
  {
    w == [] ||
    (!w[0].Base? && Steps(w[1..]) &&
     (w[0].Func? ==> assert LayerSize(w[0]) == 1 + ParamsSize(w[0].params); ChainParams(w[0].params)))
  }

  ghost predicate ChainParams(ps: seq<Param>)
    decreases ParamsSize(ps), 0
  {
    ps == [] || (Chain(ps[0].layers) && ChainParams(ps[1..]))
  }

  lemma {:induction false} DropSteps(w: seq<Layer>)
    requires Steps(w)
    ensures Steps(DropQuals(w))
  {
    if w != [] && w[0].Qual? { DropSteps(w[1..]); }
  }

  /** What may follow a declarator: no name, no suffix, no pointer. */
  predicate Ends(ts: seq<Token>) {
    ts == [] || ts[0].Close? || ts[0].Comma?
  }

  /** What may follow the part that a suffix applies to. */
  predicate EndsInner(ts: seq<Token>) {
    Ends(ts) || ts[0].Dim? || (ts[0].Open? && StartsParams(ts[1..]))
  }

  /** A direct declarator, followed by anything, is read as its steps, and reading
      goes on with the suffixes that follow. */
  lemma {:induction false} DirectReads(w: seq<Layer>, name: nat, rest: seq<Token>)
    requires Steps(w) && (w != [] ==> w[0].Array? || w[0].Func?) && EndsInner(rest)
    ensures ReadDirect(Declarator(w, name) + rest) == ReadSuffixes(rest, Decl(Kept(w), name))
    decreases Size(w), 1
  {
    if w == [] {
      if name == 0 {
        assert NameTokens(name) + rest == rest;
      } else {
        assert NameTokens(name) + rest == [Name(name)] + rest;
        assert ([Name(name)] + rest)[1..] == rest;
      }
    } else {
      var inner := DropQuals(w[1..]);
      DropSize(w[1..]);
      DropSteps(w[1..]);
      if w[0].Array? {
        var end := [Dim(w[0].n)] + rest;
        InnerReads(inner, name, true, end);
        ArraySuffix(w, name, rest);
      } else {
        assert LayerSize(w[0]) == 1 + ParamsSize(w[0].params);
        var ps := w[0].params;
        var tail := ParamTokens(ps) + ([Close] + rest);
        ParamsStart(ps, rest);
        assert ([Open] + tail)[1..] == tail;
        InnerReads(inner, name, false, [Open] + tail);
        ParamsRead(ps, rest);
        FuncSuffix(w, name, rest);
      }
    }
  }

  lemma ArraySuffix(w: seq<Layer>, name: nat, rest: seq<Token>)
    requires w != [] && w[0].Array?
    ensures var inner, end := DropQuals(w[1..]), [Dim(w[0].n)] + rest;
      Declarator(w, name) + rest == Inner(inner, name, true) + end &&
      ReadSuffixes(end, Decl(Kept(inner), name)) == ReadSuffixes(rest, Decl(Kept(w), name))
  {
    hide Inner;
    var inner := DropQuals(w[1..]);
    assert Declarator(w, name) == Inner(inner, name, true) + [Dim(w[0].n)];
    assert Kept(w) == [Array(w[0].n)] + Kept(inner);
    Regroup(Inner(inner, name, true), Dim(w[0].n), rest);
    DimStep(w[0].n, rest, Decl(Kept(inner), name));
  }

  lemma Regroup(a: seq<Token>, t: Token, rest: seq<Token>)
    ensures a + [t] + rest == a + ([t] + rest)
  {
  }

  lemma DimStep(n: nat, rest: seq<Token>, inner: Decl)
    ensures ReadSuffixes([Dim(n)] + rest, inner) == ReadSuffixes(rest, Decl([Array(n)] + inner.layers, inner.name))
  {
    assert ([Dim(n)] + rest)[1..] == rest;
  }

  lemma FuncSuffix(w: seq<Layer>, name: nat, rest: seq<Token>)
    requires w != [] && w[0].Func?
    requires ReadParams(ParamTokens(w[0].params) + ([Close] + rest)) == Read(KeptParams(w[0].params), rest)
    ensures var inner, end := DropQuals(w[1..]), [Open] + (ParamTokens(w[0].params) + ([Close] + rest));
      Declarator(w, name) + rest == Inner(inner, name, false) + end &&
      ReadSuffixes(end, Decl(Kept(inner), name)) == ReadSuffixes(rest, Decl(Kept(w), name))
  {
    hide ReadParams, ParamTokens, KeptParams, Inner;
    var ps, inner := w[0].params, DropQuals(w[1..]);
    var tail := ParamTokens(ps) + ([Close] + rest);
    var end := [Open] + tail;
    assert Declarator(w, name) == Inner(inner, name, false) + [Open] + ParamTokens(ps) + [Close];
    assert end[1..] == tail && end[0] == Open;
    assert Kept(w) == [Func(KeptParams(ps))] + Kept(inner);
  }

  /** The same for the part that a suffix follows, in parentheses where needed. */
  lemma {:induction false} InnerReads(w: seq<Layer>, name: nat, ofArray: bool, rest: seq<Token>)
    requires Steps(w) && (w != [] ==> !w[0].Qual?) && EndsInner(rest)
    ensures ReadDirect(Inner(w, name, ofArray) + rest) == ReadSuffixes(rest, Decl(Kept(w), name))
    decreases Size(w), 3
  {
    if w == [] || (ofArray && w[0].Array?) {
      DirectReads(w, name, rest);
    } else {
      var end := [Close] + rest;
      var ts := Declarator(w, name) + end;
      assert Inner(w, name, ofArray) + rest == [Open] + ts;
      assert ([Open] + ts)[1..] == ts && end[1..] == rest;
      DeclaratorStart(w, name, end);
      DeclaratorReads(w, name, false, end);
    }
  }

  /** A declarator that is not just a name does not look like a parameter list. */
  lemma {:induction false} DeclaratorStart(w: seq<Layer>, name: nat, rest: seq<Token>)
    requires Steps(w) && w != [] && !w[0].Qual?
    ensures Declarator(w, name) != [] && !StartsParams(Declarator(w, name) + rest)
    decreases Size(w)
  {
    var inner := DropQuals(w[1..]);
    DropSize(w[1..]);
    DropSteps(w[1..]);
    if w[0].Array? {
      if inner != [] && inner[0].Array? { DeclaratorStart(inner, name, [Dim(w[0].n)] + rest); }
      assert Declarator(w, name) == Inner(inner, name, true) + [Dim(w[0].n)];
    } else if w[0].Func? {
      assert LayerSize(w[0]) == 1 + ParamsSize(w[0].params);
      assert Declarator(w, name) == Inner(inner, name, false) + [Open] + ParamTokens(w[0].params) + [Close];
    }
  }

  /** A declarator is read as the steps it was printed from. */
  lemma {:induction false} DeclaratorReads(w: seq<Layer>, name: nat, afterPtr: bool, rest: seq<Token>)
    requires Steps(w) && (w != [] && w[0].Qual? ==> afterPtr) && Ends(rest)
    ensures ReadDeclarator(Declarator(w, name) + rest, afterPtr) == Read(Decl(Kept(w), name), rest)
    decreases Size(w), 2
  {
    if w != [] && (w[0].Ptr? || w[0].Qual?) {
      var first := if w[0].Ptr? then Star else QualWord(w[0].q);
      var ts := Declarator(w[1..], name) + rest;
      assert Declarator(w, name) + rest == [first] + ts;
      assert ([first] + ts)[1..] == ts;
      DeclaratorReads(w[1..], name, true, rest);
    } else {
      DirectReads(w, name, rest);
      NotPointer(w, name, rest);
    }
  }

  lemma NotPointer(w: seq<Layer>, name: nat, rest: seq<Token>)
    requires Steps(w) && (w != [] ==> w[0].Array? || w[0].Func?) && Ends(rest)
    ensures var ts := Declarator(w, name) + rest; ts != [] ==> !ts[0].Star? && !ts[0].QualWord?
  {
    if w != [] { NotPointerStart(w, name); }
  }

  lemma {:induction false} NotPointerStart(w: seq<Layer>, name: nat)
    requires Steps(w) && w != [] && (w[0].Array? || w[0].Func?)
    ensures Declarator(w, name) != [] && !Declarator(w, name)[0].Star? && !Declarator(w, name)[0].QualWord?
    decreases Size(w)
  {
    var inner := DropQuals(w[1..]);
    DropSize(w[1..]);
    DropSteps(w[1..]);
    if w[0].Array? {
      if inner != [] && inner[0].Array? { NotPointerStart(inner, name); }
      assert Declarator(w, name) == Inner(inner, name, true) + [Dim(w[0].n)];
    } else {
      assert LayerSize(w[0]) == 1 + ParamsSize(w[0].params);
      assert Declarator(w, name) == Inner(inner, name, false) + [Open] + ParamTokens(w[0].params) + [Close];
    }
  }

  lemma ParamsStart(ps: seq<Param>, rest: seq<Token>)
    requires ChainParams(ps)
    ensures StartsParams(ParamTokens(ps) + ([Close] + rest))
  {
    if ps == [] || (|ps| == 1 && ps[0].layers == VOID_LAYERS) {
      assert ParamTokens(ps) == [];
    } else {
      ListStart(ps);
    }
  }

  lemma ListStart(ps: seq<Param>)
    requires ChainParams(ps) && ps != []
    ensures ListTokens(ps) != [] && !ListTokens(ps)[0].Close? && StartsParams(ListTokens(ps))
  {
    DeclarationStart(ps[0].layers, ps[0].name);
    var d := Declaration(ps[0].layers, ps[0].name);
    if |ps| > 1 { assert ListTokens(ps) == d + [Comma] + ListTokens(ps[1..]); }
  }

  lemma DeclarationStart(w: seq<Layer>, name: nat)
    requires Chain(w)
    ensures Declaration(w, name) != []
    ensures Declaration(w, name)[0].QualWord? || Declaration(w, name)[0].TypeWord?
  {
  }

  /** A parameter list is read as the parameters it was printed from. */
  lemma {:induction false} ParamsRead(ps: seq<Param>, rest: seq<Token>)
    requires ChainParams(ps)
    ensures ReadParams(ParamTokens(ps) + ([Close] + rest)) == Read(KeptParams(ps), rest)
    decreases ParamsSize(ps), 5
  {
    var end := [Close] + rest;
    if ps == [] || (|ps| == 1 && ps[0].layers == VOID_LAYERS) {
      assert ParamTokens(ps) + end == end && end[1..] == rest;
    } else {
      ListStart(ps);
      ListReads(ps, rest);
    }
  }

  lemma {:induction false} ListReads(ps: seq<Param>, rest: seq<Token>)
    requires ChainParams(ps) && ps != []
    ensures ReadList(ListTokens(ps) + ([Close] + rest)) == Read(KeptList(ps), rest)
    decreases ParamsSize(ps), 4
  {
    if |ps| == 1 {
      OneReads(ps[0], rest);
      assert ps == [ps[0]];
    } else {
      var p, tail := ps[0], ListTokens(ps[1..]) + ([Close] + rest);
      var d := Declaration(p.layers, p.name);
      DeclarationStart(p.layers, p.name);
      assert ListTokens(ps) + ([Close] + rest) == d + ([Comma] + tail);
      DeclarationReads(p.layers, p.name, [Comma] + tail);
      ListReads(ps[1..], rest);
      NextRead(d, Param(p.name, Kept(p.layers)), tail, KeptList(ps[1..]), rest);
    }
  }

  lemma {:induction false} OneReads(p: Param, rest: seq<Token>)
    requires Chain(p.layers)
    ensures ReadList(ListTokens([p]) + ([Close] + rest)) == Read(KeptList([p]), rest)
    decreases Size(p.layers), 5
  {
    var end := [Close] + rest;
    if p.layers == VOID_LAYERS {
      assert ([Ellipsis] + end)[2..] == rest;
    } else {
      var d, kept := Declaration(p.layers, p.name), Param(p.name, Kept(p.layers));
      DeclarationStart(p.layers, p.name);
      DeclarationReads(p.layers, p.name, end);
      LastRead(d, kept, rest);
      assert [p][1..] == [] && KeptList([p]) == [kept];
    }
  }

  lemma NextRead(d: seq<Token>, p: Param, tail: seq<Token>, ps: seq<Param>, rest: seq<Token>)
    requires d != [] && !d[0].Ellipsis? && ReadDeclaration(d + ([Comma] + tail)) == Read(p, [Comma] + tail)
    requires ReadList(tail) == Read(ps, rest)
    ensures ReadList(d + ([Comma] + tail)) == Read([p] + ps, rest)
  {
    assert ([Comma] + tail)[1..] == tail;
  }

  /** The last parameter of a list, read as `p`. */
  lemma LastRead(d: seq<Token>, p: Param, rest: seq<Token>)
    requires d != [] && !d[0].Ellipsis? && ReadDeclaration(d + ([Close] + rest)) == Read(p, [Close] + rest)
    ensures ReadList(d + ([Close] + rest)) == Read([p], rest)
  {
    assert ([Close] + rest)[1..] == rest;
  }

  /** The round trip: a printed declaration denotes the chain it was printed from. */
  lemma {:induction false} DeclarationReads(w: seq<Layer>, name: nat, rest: seq<Token>)
    requires Chain(w) && Ends(rest)
    ensures ReadDeclaration(Declaration(w, name) + rest) == Read(Param(name, Kept(w)), rest)
    decreases Size(w), 3
  {
    var tail := [TypeWord(w[0].id)] + (Declarator(DropQuals(w[1..]), name) + rest);
    BaseReads(w[0], w[1..], name, rest);
    assert Declaration(w, name) + rest == QualTokens(w[1..]) + tail;
    assert Kept(w) == [w[0]] + Kept(w[1..]);
  }

  /** The base type with the qualifiers `w` starts with, then the declarator. */
  lemma {:induction false} BaseReads(base: Layer, w: seq<Layer>, name: nat, rest: seq<Token>)
    requires base.Base? && Steps(w) && Ends(rest)
    ensures ReadDeclaration(QualTokens(w) + ([TypeWord(base.id)] + (Declarator(DropQuals(w), name) + rest)))
            == Read(Param(name, [base] + Kept(w)), rest)
    decreases Size(w), 3
  {
    var tail := [TypeWord(base.id)] + (Declarator(DropQuals(w), name) + rest);
    if w != [] && w[0].Qual? {
      var more := QualTokens(w[1..]) + tail;
      assert QualTokens(w) + tail == [QualWord(w[0].q)] + more;
      BaseReads(base, w[1..], name, rest);
      QualStep(w[0].q, more, Param(name, [base] + Kept(w[1..])), rest);
      assert Kept(w) == [w[0]] + Kept(w[1..]);
      AfterBase(base, w[0], Kept(w[1..]));
    } else {
      assert QualTokens(w) + tail == tail;
      DeclaratorReads(w, name, false, rest);
      BaseStep(base.id, Declarator(w, name) + rest, Decl(Kept(w), name), rest);
    }
  }

  lemma AfterBase(base: Layer, l: Layer, w: seq<Layer>)
    ensures [base] + ([l] + w) == [([base] + w)[0], l] + ([base] + w)[1..]
  {
  }

  lemma QualStep(q: Qualifier, ts: seq<Token>, p: Param, rest: seq<Token>)
    requires ReadDeclaration(ts) == Read(p, rest) && p.layers != []
    ensures ReadDeclaration([QualWord(q)] + ts) == Read(Param(p.name, [p.layers[0], Qual(q)] + p.layers[1..]), rest)
  {
    assert ([QualWord(q)] + ts)[1..] == ts;
  }

  lemma BaseStep(id: nat, ts: seq<Token>, d: Decl, rest: seq<Token>)
    requires ReadDeclarator(ts, false) == Read(d, rest)
    ensures ReadDeclaration([TypeWord(id)] + ts) == Read(Param(d.name, [Base(id)] + d.layers), rest)
  {
    assert ([TypeWord(id)] + ts)[1..] == ts;
  }

  // ------------------------------------------------------------------ spacing

  /** What is printed for the steps after the base type, spaces included;
      `lastWasPtr` says that what comes first need not be set apart. */
  ghost function Spaced(w: seq<Layer>, name: nat, lastWasPtr: bool): seq<Token>
    decreases Size(w), 0
  {
    if w == [] then EmittedName(name, lastWasPtr)
    else
      match w[0]
      case Base(_) => []
      case Ptr => (if lastWasPtr then [Star] else [Space, Star]) + Spaced(w[1..], name, true)
      case Qual(q) => [Space, QualWord(q)] + Spaced(w[1..], name, false)
      case Array(n) => (DropSize(w[1..]); SpacedArray(DropQuals(w[1..]), name, lastWasPtr)) + [Dim(n)]
      case Func(ps) =>
        assert LayerSize(w[0]) == 1 + ParamsSize(ps);
        (DropSize(w[1..]); SpacedFunc(DropQuals(w[1..]), name, lastWasPtr)) + [Open] + SpacedParams(ps) + [Close]
  }

  ghost function SpacedArray(w: seq<Layer>, name: nat, lastWasPtr: bool): seq<Token>
    decreases Size(w), 1
  {
    if w == [] then EmittedName(name, lastWasPtr)
    else (if name != 0 && !lastWasPtr then [Space] else []) +
         (if w[0].Array? then Spaced(w, name, true) else [Open] + Spaced(w, name, true) + [Close])
  }

  ghost function SpacedFunc(w: seq<Layer>, name: nat, lastWasPtr: bool): seq<Token>
    decreases Size(w), 1
  {
    if w == [] then EmittedName(name, lastWasPtr)
    else [Space, Open] + Spaced(w, name, true) + [Close]
  }

  ghost function SpacedParams(ps: seq<Param>): seq<Token>
    decreases ParamsSize(ps), 1
  {
    if |ps| == 1 && ps[0].layers == VOID_LAYERS then [] else SpacedList(ps)
  }

  ghost function SpacedList(ps: seq<Param>): seq<Token>
    decreases ParamsSize(ps), 0
  {
    if ps == [] then []
    else if |ps| == 1 then SpacedParam(ps[0], true)
    else SpacedParam(ps[0], false) + [Comma, Space] + SpacedList(ps[1..])
  }

  ghost function SpacedParam(p: Param, last: bool): seq<Token>
    decreases Size(p.layers), 3
  {
    if last && p.layers == VOID_LAYERS then [Ellipsis] else SpacedDeclaration(p.layers, p.name)
  }

  ghost function SpacedDeclaration(w: seq<Layer>, name: nat): seq<Token>
    decreases Size(w), 2
  {
    if w == [] || !w[0].Base? then []
    else SpacedQuals(w[1..]) + [TypeWord(w[0].id)] + (DropSize(w[1..]); Spaced(DropQuals(w[1..]), name, false))
  }

  function SpacedQuals(w: seq<Layer>): seq<Token> {
    if w != [] && w[0].Qual? then [QualWord(w[0].q), Space] + SpacedQuals(w[1..]) else []
  }

  /** The tokens other than spaces. */
  ghost function Unspaced(ts: seq<Token>): seq<Token> {
    if ts == [] then [] else (if ts[0].Space? then [] else [ts[0]]) + Unspaced(ts[1..])
  }

  lemma {:induction false} UnspacedConcat(a: seq<Token>, b: seq<Token>)
    ensures Unspaced(a + b) == Unspaced(a) + Unspaced(b)
  {
    if a == [] {
      assert a + b == b;
    } else {
      UnspacedConcat(a[1..], b);
      assert (a + b)[1..] == a[1..] + b;
    }
  }

  predicate IsWord(t: Token) { t.QualWord? || t.TypeWord? || t.Name? }

  /** No two words are glued together, nor the first to a word printed before. */
  ghost predicate Apart(before: bool, ts: seq<Token>)
    decreases ts
  {
    ts == [] || (!(before && IsWord(ts[0])) && Apart(IsWord(ts[0]), ts[1..]))
  }

  lemma {:induction false} ApartConcat(before: bool, a: seq<Token>, t: Token, b: seq<Token>)
    requires Apart(before, a) && !IsWord(t) && Apart(false, b)
    ensures Apart(before, a + [t] + b)
    decreases a
  {
    if a == [] {
      assert (a + [t] + b)[1..] == b;
    } else {
      ApartConcat(IsWord(a[0]), a[1..], t, b);
      assert (a + [t] + b)[1..] == a[1..] + [t] + b;
    }
  }

  /** `ts` is `plain` with spaces that keep its words apart. */
  ghost predicate SpacedAs(before: bool, ts: seq<Token>, plain: seq<Token>) {
    Unspaced(ts) == plain && Apart(before, ts)
  }

  /** Pieces joined by a token that is not a word. */
  lemma Joined(before: bool, a: seq<Token>, pa: seq<Token>, t: Token, b: seq<Token>, pb: seq<Token>)
    requires SpacedAs(before, a, pa) && SpacedAs(false, b, pb) && !IsWord(t)
    ensures SpacedAs(before, a + [t] + b, pa + (if t.Space? then [] else [t]) + pb)
  {
    ApartConcat(before, a, t, b);
    UnspacedConcat(a + [t], b);
    UnspacedConcat(a, [t]);
    assert Unspaced([t]) == if t.Space? then [] else [t] by { assert Unspaced([t][1..]) == []; }
  }

  /** A piece with a token that is not a word behind it. */
  lemma Followed(before: bool, a: seq<Token>, pa: seq<Token>, t: Token)
    requires SpacedAs(before, a, pa) && !IsWord(t) && !t.Space?
    ensures SpacedAs(before, a + [t], pa + [t])
  {
    Joined(before, a, pa, t, [], []);
    assert a + [t] + [] == a + [t] && pa + [t] + [] == pa + [t];
  }

  /** A piece with a token in front. */
  lemma Led(before: bool, t: Token, a: seq<Token>, pa: seq<Token>)
    requires SpacedAs(IsWord(t), a, pa) && !(before && IsWord(t)) && !t.Space?
    ensures SpacedAs(before, [t] + a, [t] + pa)
  {
    assert ([t] + a)[1..] == a;
  }

  lemma SetApart(before: bool, a: seq<Token>, pa: seq<Token>)
    requires SpacedAs(false, a, pa)
    ensures SpacedAs(before, [Space] + a, pa)
  {
    assert ([Space] + a)[1..] == a;
    assert [] + pa == pa;
  }

  lemma NameSpaced(name: nat, lastWasPtr: bool)
    ensures SpacedAs(!(lastWasPtr && name != 0), EmittedName(name, lastWasPtr), NameTokens(name))
  {
    if name != 0 {
      var n := [Name(name)];
      assert n[1..] == [];
      assert SpacedAs(false, n, n);
      if lastWasPtr { assert EmittedName(name, lastWasPtr) == n; } else { SetApart(true, n, n); }
    }
  }

  lemma Weaker(before: bool, ts: seq<Token>, plain: seq<Token>)
    requires SpacedAs(true, ts, plain)
    ensures SpacedAs(before, ts, plain)
  {
  }

  /** The spaces printed are enough, and removing them gives the plain declarator. */
  lemma {:induction false} SpacedWell(w: seq<Layer>, name: nat, lastWasPtr: bool)
    ensures SpacedAs(!(lastWasPtr && name != 0), Spaced(w, name, lastWasPtr), Declarator(w, name))
    decreases Size(w), 1
  {
    hide SpacedAs;
    var before := !(lastWasPtr && name != 0);
    if w == [] {
      NameSpaced(name, lastWasPtr);
    } else if w[0].Base? {
      EmptySpaced(before);
    } else if w[0].Ptr? {
      SpacedWell(w[1..], name, true);
      var rest, plain := Spaced(w[1..], name, true), Declarator(w[1..], name);
      AnyBefore(name, rest, plain);
      Led(before, Star, rest, plain);
      if !lastWasPtr {
        Led(false, Star, rest, plain);
        SetApart(before, [Star] + rest, [Star] + plain);
        assert [Space] + ([Star] + rest) == [Space, Star] + rest;
      }
    } else if w[0].Qual? {
      SpacedWell(w[1..], name, false);
      var rest, plain, q := Spaced(w[1..], name, false), Declarator(w[1..], name), QualWord(w[0].q);
      Led(false, q, rest, plain);
      SetApart(before, [q] + rest, [q] + plain);
      assert [Space] + ([q] + rest) == [Space, q] + rest;
    } else {
      SuffixSpaced(w, name, lastWasPtr);
    }
  }

  lemma EmptySpaced(before: bool)
    ensures SpacedAs(before, [], [])
  {
  }

  lemma AnyBefore(name: nat, ts: seq<Token>, plain: seq<Token>)
    requires SpacedAs(!(true && name != 0), ts, plain)
    ensures SpacedAs(false, ts, plain)
  {
    if name == 0 { Weaker(false, ts, plain); }
  }

  lemma {:induction false} SuffixSpaced(w: seq<Layer>, name: nat, lastWasPtr: bool)
    requires w != [] && (w[0].Array? || w[0].Func?)
    ensures SpacedAs(!(lastWasPtr && name != 0), Spaced(w, name, lastWasPtr), Declarator(w, name))
    decreases Size(w), 0
  {
    hide SpacedAs;
    var before := !(lastWasPtr && name != 0);
    var inner := DropQuals(w[1..]);
    DropSize(w[1..]);
    if w[0].Array? {
      ArraySpaced(inner, name, lastWasPtr);
      Followed(before, SpacedArray(inner, name, lastWasPtr), Inner(inner, name, true), Dim(w[0].n));
    } else {
      var ps := w[0].params;
      assert LayerSize(w[0]) == 1 + ParamsSize(ps);
      FuncSpaced(inner, name, lastWasPtr);
      ParamsSpaced(ps);
      Joined(before, SpacedFunc(inner, name, lastWasPtr), Inner(inner, name, false), Open, SpacedParams(ps), ParamTokens(ps));
      Followed(before, SpacedFunc(inner, name, lastWasPtr) + [Open] + SpacedParams(ps),
               Inner(inner, name, false) + [Open] + ParamTokens(ps), Close);
    }
  }

  /** A declarator in parentheses. */
  lemma {:induction false} Parenthesized(w: seq<Layer>, name: nat, before: bool)
    ensures SpacedAs(before, [Open] + Spaced(w, name, true) + [Close], [Open] + Declarator(w, name) + [Close])
    decreases Size(w), 2
  {
    hide SpacedAs;
    SpacedWell(w, name, true);
    AnyBefore(name, Spaced(w, name, true), Declarator(w, name));
    Led(before, Open, Spaced(w, name, true), Declarator(w, name));
    Followed(before, [Open] + Spaced(w, name, true), [Open] + Declarator(w, name), Close);
  }

  lemma {:induction false} ArraySpaced(w: seq<Layer>, name: nat, lastWasPtr: bool)
    ensures SpacedAs(!(lastWasPtr && name != 0), SpacedArray(w, name, lastWasPtr), Inner(w, name, true))
    decreases Size(w), 3
  {
    hide SpacedAs;
    var before := !(lastWasPtr && name != 0);
    if w == [] {
      NameSpaced(name, lastWasPtr);
    } else {
      var inner := if w[0].Array? then Spaced(w, name, true) else [Open] + Spaced(w, name, true) + [Close];
      var plain := Inner(w, name, true);
      if w[0].Array? {
        SpacedWell(w, name, true);
        AnyBefore(name, inner, plain);
      } else {
        Parenthesized(w, name, false);
        Parenthesized(w, name, before);
      }
      if name != 0 && !lastWasPtr {
        SetApart(before, inner, plain);
      } else {
        assert SpacedArray(w, name, lastWasPtr) == [] + inner == inner;
        if name == 0 && w[0].Array? { SameBefore(name, before, inner, plain); }
      }
    }
  }

  lemma SameBefore(name: nat, before: bool, ts: seq<Token>, plain: seq<Token>)
    requires name == 0 && SpacedAs(!(true && name != 0), ts, plain)
    ensures SpacedAs(before, ts, plain)
  {
    Weaker(before, ts, plain);
  }

  lemma {:induction false} FuncSpaced(w: seq<Layer>, name: nat, lastWasPtr: bool)
    ensures SpacedAs(!(lastWasPtr && name != 0), SpacedFunc(w, name, lastWasPtr), Inner(w, name, false))
    decreases Size(w), 3
  {
    hide SpacedAs;
    if w == [] {
      NameSpaced(name, lastWasPtr);
    } else {
      var inner := [Open] + Spaced(w, name, true) + [Close];
      Parenthesized(w, name, false);
      SetApart(!(lastWasPtr && name != 0), inner, Inner(w, name, false));
      assert [Space] + inner == [Space, Open] + Spaced(w, name, true) + [Close];
    }
  }

  lemma {:induction false} ParamsSpaced(ps: seq<Param>)
    ensures SpacedAs(false, SpacedParams(ps), ParamTokens(ps))
    decreases ParamsSize(ps), 1
  {
    hide SpacedAs;
    if |ps| == 1 && ps[0].layers == VOID_LAYERS { EmptySpaced(false); } else { ListSpaced(ps); }
  }

  lemma {:induction false} ListSpaced(ps: seq<Param>)
    ensures SpacedAs(false, SpacedList(ps), ListTokens(ps))
    decreases ParamsSize(ps), 0
  {
    hide SpacedAs;
    if ps == [] {
      EmptySpaced(false);
    } else if |ps| == 1 {
      LastSpaced(ps[0]);
    } else {
      var d, plain := SpacedDeclaration(ps[0].layers, ps[0].name), Declaration(ps[0].layers, ps[0].name);
      var rest := SpacedList(ps[1..]);
      DeclarationSpaced(ps[0].layers, ps[0].name);
      ListSpaced(ps[1..]);
      SetApart(false, rest, ListTokens(ps[1..]));
      Joined(false, d, plain, Comma, [Space] + rest, ListTokens(ps[1..]));
      assert d + [Comma] + ([Space] + rest) == d + [Comma, Space] + rest == SpacedList(ps);
    }
  }

  lemma {:induction false} LastSpaced(p: Param)
    ensures SpacedAs(false, SpacedParam(p, true), ParamToken(p, true))
    decreases Size(p.layers), 3
  {
    hide SpacedAs;
    if p.layers == VOID_LAYERS {
      EmptySpaced(false);
      Led(false, Ellipsis, [], []);
      assert [Ellipsis] + [] == [Ellipsis];
    } else {
      DeclarationSpaced(p.layers, p.name);
    }
  }

  /** What is printed is the plain declaration with its words kept apart. */
  lemma {:induction false} DeclarationSpaced(w: seq<Layer>, name: nat)
    ensures SpacedAs(false, SpacedDeclaration(w, name), Declaration(w, name))
    decreases Size(w), 2
  {
    hide SpacedAs;
    if w == [] || !w[0].Base? {
      EmptySpaced(false);
    } else {
      var rest := DropQuals(w[1..]);
      DropSize(w[1..]);
      SpacedWell(rest, name, false);
      Led(false, TypeWord(w[0].id), Spaced(rest, name, false), Declarator(rest, name));
      QualsSpaced(w[1..], [TypeWord(w[0].id)] + Spaced(rest, name, false), [TypeWord(w[0].id)] + Declarator(rest, name));
      assert SpacedDeclaration(w, name) == SpacedQuals(w[1..]) + ([TypeWord(w[0].id)] + Spaced(rest, name, false));
      assert Declaration(w, name) == QualTokens(w[1..]) + ([TypeWord(w[0].id)] + Declarator(rest, name));
    }
  }

  lemma {:induction false} QualsSpaced(w: seq<Layer>, ts: seq<Token>, plain: seq<Token>)
    requires SpacedAs(false, ts, plain)
    ensures SpacedAs(false, SpacedQuals(w) + ts, QualTokens(w) + plain)
    decreases w
  {
    hide SpacedAs;
    if w != [] && w[0].Qual? {
      QualsSpaced(w[1..], ts, plain);
      var rest, p, q := SpacedQuals(w[1..]) + ts, QualTokens(w[1..]) + plain, QualWord(w[0].q);
      SetApart(true, rest, p);
      Led(false, q, [Space] + rest, p);
      assert SpacedQuals(w) + ts == [q] + ([Space] + rest);
      assert QualTokens(w) + plain == [q] + p;
    } else {
      assert SpacedQuals(w) + ts == ts && QualTokens(w) + plain == plain;
    }
  }
}
