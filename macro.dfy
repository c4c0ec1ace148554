/**
 * The `abi` attribute: classify the declaration, require an `extern` marker,
 * then take the ABI name from a single literal (direct mode) or from the
 * first entry of a `shortcut = "abi", ...` table whose shortcut denotes the
 * platform (table mode), and write it into the marker.
 */
module Macro {
  import opened Wrappers
  import opened Target
  import opened Syntax
  import opened Items

  /*
   * Specification of the expansion
   */

  /** A character UTF-8 encodes in one byte. */
  predicate Ascii(c: char) {
    c <= '\U{7F}'
  }

  /**
   * A literal's text with its first and last bytes dropped, as the slice
   * `[1..len-1]` does. The slice fails on a text shorter than two characters,
   * and when byte 1 or byte `len-1` falls inside a multi-byte character, which
   * is when the first or the last character is not ASCII.
   */
  function Unquote(text: string): (r: Result<string, Error>)
    ensures r.Err? <==> |text| < 2 || !Ascii(text[0]) || !Ascii(text[|text| - 1])
    ensures |text| < 2 ==> r == Err(LiteralTooShort(text))
    ensures |text| >= 2 && r.Err? ==> r == Err(NotCharBoundary(text))
    ensures r.Ok? ==> text == [text[0]] + r.value + [text[|text| - 1]]
  {
    if |text| < 2 then Err(LiteralTooShort(text))
    else if !Ascii(text[0]) || !Ascii(text[|text| - 1]) then Err(NotCharBoundary(text))
    else Ok(text[1..|text| - 1])
  }

  /**
   * After the shortcut `args[0]`: requires the tokens `=` and a literal, and
   * gives the literal's text.
   */
  function EntryLiteral(args: seq<Token>): Result<string, Error>
    requires |args| >= 1
  {
    if |args| < 2 then Err(MissingEquals)
    else if !args[1].Punct? then Err(Unexpected(args[1]))
    else if args[1].ch != '=' then Err(ExpectedPunct('='))
    else if |args| < 3 then Err(MissingLiteral)
    else if !args[2].Literal? then Err(Unexpected(args[2]))
    else Ok(args[2].text)
  }

  /** How a scan of the shortcut table ends. */
  datatype Scan = Matched(name: string) | NoMatch | ScanError(error: Error)

  /**
   * Table mode: reads `shortcut = literal` entries separated by `,` and stops
   * at the first entry whose shortcut denotes the platform, without looking at
   * anything after it.
   */
  function ScanTable(p: Platform, args: seq<Token>): (r: Scan)
    requires Supported(p)
    ensures r.Matched? ==> exists i :: 0 <= i < |args| && args[i].Ident? && MatchTarget(args[i].text, p)
    ensures r.NoMatch? ==> forall i :: 0 <= i < |args| && args[i].Ident? ==> !MatchTarget(args[i].text, p)
    decreases |args|
  {
    if args == [] then NoMatch
    else if !args[0].Ident? then ScanError(Unexpected(args[0]))
    else match EntryLiteral(args)
      case Err(e) => ScanError(e)
      case Ok(literal) =>
        if MatchTarget(args[0].text, p) then
          match Unquote(literal)
          case Ok(name) => Matched(name)
          case Err(e) => ScanError(e)
        else if |args| == 3 then NoMatch
        else if !args[3].Punct? then ScanError(Unexpected(args[3]))
        else if args[3].ch != ',' then ScanError(ExpectedPunct(','))
        else ScanTable(p, args[4..])
  }

  /**
   * The expansion of an already classified declaration `d`. On success the
   * marker names an ABI and nothing but the marker has changed.
   */
  function Rewrite(p: Platform, args: seq<Token>, d: Decl): (r: Result<Decl, Error>)
    requires Supported(p)
    ensures r.Ok? ==> HasMarker(r.value) && MarkerOf(r.value).value.value.name.Some?
    ensures r.Ok? ==> Skeleton(r.value) == Skeleton(d)
  {
    var marker :- MarkerOf(d);
    if marker.None? then Err(MissingExtern)
    else if |args| == 0 then Err(NoArguments)
    else if args[0].Literal? then
      var name :- Unquote(args[0].text);
      if |args| > 1 then Err(TrailingArgument) else Ok(WithAbiName(d, Some(name)))
    else match ScanTable(p, args)
      case Matched(name) => Ok(WithAbiName(d, Some(name)))
      case ScanError(e) => Err(e)
      case NoMatch => if marker.value.name.Some? then Ok(d) else Err(MissingDefault)
  }

  /** The whole attribute: classification, then the rewrite. */
  function Expansion(p: Platform, args: seq<Token>, input: ParseAttempts): (r: Result<Decl, Error>)
    requires Supported(p)
    requires KindsAgree(input)
    ensures Classify(input).None? ==> r == Err(UnsupportedItem)
    ensures r.Ok? ==> Classify(input).Some? && Skeleton(r.value) == Skeleton(Classify(input).value)
    ensures r.Ok? ==> HasMarker(r.value) && MarkerOf(r.value).value.value.name.Some?
  {
    match Classify(input)
    case None => Err(UnsupportedItem)
    case Some(d) => Rewrite(p, args, d)
  }

  /*
   * The attribute as the step-by-step consumer of its argument tokens
   */

  /** `abi(args, input)`: consumes the argument tokens one by one and rewrites the parsed item in place. */
  method AbiMacro(p: Platform, args: seq<Token>, input: ParseAttempts) returns (r: Result<Decl, Error>)
    requires Supported(p)
    requires KindsAgree(input)
    ensures r == Expansion(p, args, input)
  {
    var parsed := Classify(input);
    if parsed.None? {
      return Err(UnsupportedItem);
    }
    var item := new Item(parsed.value);
    var functionAbi := item.GetAbi();
    if functionAbi.Err? {
      return Err(functionAbi.error);
    }
    if functionAbi.value.None? {
      return Err(MissingExtern);
    }
    if |args| == 0 {
      return Err(NoArguments);
    }
    if args[0].Literal? {
      var desired := Unquote(args[0].text);
      if desired.Err? {
        return Err(desired.error);
      }
      item.SetAbi(Some(desired.value));
      if |args| > 1 {
        return Err(TrailingArgument);
      }
      return Ok(item.node);
    }
    var i := 0;
    while i < |args|
      invariant 0 <= i <= |args|
      invariant item.node == parsed.value
      invariant ScanTable(p, args[i..]) == ScanTable(p, args)
      decreases |args| - i
    {
      ghost var start := i;
      var arg := args[i];
      i := i + 1;
      if !arg.Ident? {
        return Err(Unexpected(arg));
      }
      if MatchTarget(arg.text, p) {
        if i == |args| {
          return Err(MissingEquals);
        }
        var eq := args[i];
        i := i + 1;
        if !eq.Punct? {
          return Err(Unexpected(eq));
        } else if eq.ch != '=' {
          return Err(ExpectedPunct('='));
        }
        if i == |args| {
          return Err(MissingLiteral);
        }
        var abiToken := args[i];
        i := i + 1;
        if !abiToken.Literal? {
          return Err(Unexpected(abiToken));
        }
        var desired := Unquote(abiToken.text);
        if desired.Err? {
          return Err(desired.error);
        }
        item.SetAbi(Some(desired.value));
        return Ok(item.node);
      } else {
        if i == |args| {
          return Err(MissingEquals);
        }
        var eq := args[i];
        i := i + 1;
        if !eq.Punct? {
          return Err(Unexpected(eq));
        } else if eq.ch != '=' {
          return Err(ExpectedPunct('='));
        }
        if i == |args| {
          return Err(MissingLiteral);
        }
        var abiToken := args[i];
        i := i + 1;
        if !abiToken.Literal? {
          return Err(Unexpected(abiToken));
        }
        if i < |args| {
          var separator := args[i];
          i := i + 1;
          if !separator.Punct? {
            return Err(Unexpected(separator));
          } else if separator.ch != ',' {
            return Err(ExpectedPunct(','));
          }
          assert args[start..][4..] == args[i..];
          continue;
        } else {
          break;
        }
      }
    }
    var defaultAbi := Deref(functionAbi.value.value);
    if defaultAbi.name.Some? {
      return Ok(item.node);
    } else {
      return Err(MissingDefault);
    }
  }

  /*
   * Properties of the expansion
   */

  /** A declaration that no kind accepts is refused. */
  lemma UnsupportedItemFails(p: Platform, args: seq<Token>, input: ParseAttempts)
    requires Supported(p)
    requires KindsAgree(input)
    requires Classify(input).None?
    ensures Expansion(p, args, input) == Err(UnsupportedItem)
  {
  }

  /** Before any argument is read, the marker must be found and must exist. */
  lemma MarkerRequired(p: Platform, args: seq<Token>, d: Decl)
    requires Supported(p)
    ensures MarkerOf(d).Err? ==> Rewrite(p, args, d) == Err(MarkerOf(d).error)
    ensures MarkerOf(d) == Ok(None) ==> Rewrite(p, args, d) == Err(MissingExtern)
    ensures d.ItemStatic? && d.ty.OtherType? ==> Rewrite(p, args, d) == Err(StaticNotBareFn)
    ensures d.ItemType? && d.ty.OtherType? ==> Rewrite(p, args, d) == Err(AliasNotBareFn)
  {
  }

  /** An empty argument list is refused. */
  lemma NoArgumentsFail(p: Platform, d: Decl)
    requires Supported(p)
    requires HasMarker(d)
    ensures Rewrite(p, [], d) == Err(NoArguments)
  {
  }

  /** A string literal loses exactly its quotes. */
  lemma UnquoteQuoted(s: string)
    ensures Unquote("\"" + s + "\"") == Ok(s)
  {
  }

  /**
   * Direct mode: a single literal names the ABI, with its two outer
   * characters dropped; any token after it is refused. A literal the slice
   * cannot cut fails before the rest is looked at.
   */
  lemma DirectMode(p: Platform, d: Decl, literal: string, rest: seq<Token>)
    requires Supported(p)
    requires HasMarker(d)
    ensures Unquote(literal).Ok? && rest == [] ==>
      Rewrite(p, [Literal(literal)] + rest, d) == Ok(WithAbiName(d, Some(literal[1..|literal| - 1])))
    ensures Unquote(literal).Ok? && rest != [] ==> Rewrite(p, [Literal(literal)] + rest, d) == Err(TrailingArgument)
    ensures |literal| < 2 ==> Rewrite(p, [Literal(literal)] + rest, d) == Err(LiteralTooShort(literal))
    ensures |literal| >= 2 && Unquote(literal).Err? ==>
      Rewrite(p, [Literal(literal)] + rest, d) == Err(NotCharBoundary(literal))
  {
    assert ([Literal(literal)] + rest)[0] == Literal(literal);
  }

  /** One table entry `shortcut = literal`. */
  datatype Entry = Entry(shortcut: string, literal: string)

  function Triple(e: Entry): seq<Token> {
    [Ident(e.shortcut), Punct('='), Literal(e.literal)]
  }

  /** Entries each followed by a `,`. */
  function Listed(es: seq<Entry>): seq<Token> {
    if es == [] then [] else Triple(es[0]) + [Punct(',')] + Listed(es[1..])
  }

  /** A well-formed table, with or without a trailing `,`. */
  function Table(es: seq<Entry>, trailingComma: bool): seq<Token>
    requires es != []
  {
    if trailingComma then Listed(es) else Listed(es[..|es| - 1]) + Triple(es[|es| - 1])
  }

  predicate NoneMatch(p: Platform, es: seq<Entry>)
    requires Supported(p)
  {
    forall i :: 0 <= i < |es| ==> !MatchTarget(es[i].shortcut, p)
  }

  /** One entry that does not denote the platform is read, its `,` checked, and the scan goes on. */
  lemma SkipEntry(p: Platform, e: Entry, tail: seq<Token>)
    requires Supported(p)
    requires !MatchTarget(e.shortcut, p)
    ensures ScanTable(p, Triple(e) + [Punct(',')] + tail) == ScanTable(p, tail)
  {
  }

  /** Entries that do not denote the platform are read and passed over. */
  lemma {:induction false} SkipListed(p: Platform, es: seq<Entry>, rest: seq<Token>)
    requires Supported(p)
    requires NoneMatch(p, es)
    ensures ScanTable(p, Listed(es) + rest) == ScanTable(p, rest)
  {
    if es == [] {
      assert Listed(es) + rest == rest;
    } else {
      var tail := Listed(es[1..]) + rest;
      assert Listed(es) + rest == Triple(es[0]) + [Punct(',')] + tail;
      SkipEntry(p, es[0], tail);
      assert NoneMatch(p, es[1..]) by {
        forall i | 0 <= i < |es[1..]|
          ensures !MatchTarget(es[1..][i].shortcut, p)
        {
          assert es[1..][i] == es[i + 1];
        }
      }
      SkipListed(p, es[1..], rest);
    }
  }

  /** A table scan that ends on a match rewrites the marker to the matched name. */
  lemma MatchedRewrites(p: Platform, args: seq<Token>, d: Decl, name: string)
    requires Supported(p)
    requires HasMarker(d)
    requires args != [] && args[0].Ident?
    requires ScanTable(p, args) == Matched(name)
    ensures Rewrite(p, args, d) == Ok(WithAbiName(d, Some(name)))
  {
  }

  /**
   * First match wins: after entries that do not denote the platform, the first
   * entry that does names the ABI, whatever follows it, even tokens that
   * would be malformed.
   */
  lemma FirstMatchWins(p: Platform, d: Decl, before: seq<Entry>, e: Entry, rest: seq<Token>)
    requires Supported(p)
    requires HasMarker(d)
    requires NoneMatch(p, before)
    requires MatchTarget(e.shortcut, p)
    requires Unquote(e.literal).Ok?
    ensures Rewrite(p, Listed(before) + Triple(e) + rest, d)
      == Ok(WithAbiName(d, Some(e.literal[1..|e.literal| - 1])))
  {
    var t := Triple(e) + rest;
    var args := Listed(before) + t;
    assert Listed(before) + Triple(e) + rest == args;
    assert t[0] == Ident(e.shortcut) && t[1] == Punct('=') && t[2] == Literal(e.literal);
    assert ScanTable(p, args) == Matched(e.literal[1..|e.literal| - 1]) by {
      SkipListed(p, before, t);
    }
    assert args[0].Ident? by {
      if before != [] {
        assert args[0] == Ident(before[0].shortcut);
      }
    }
    MatchedRewrites(p, args, d, e.literal[1..|e.literal| - 1]);
  }

  /**
   * No entry denotes the platform: the declaration is left as it is when its
   * marker already names an ABI, and the expansion fails otherwise.
   */
  lemma NoMatchKeepsDefault(p: Platform, d: Decl, es: seq<Entry>, trailingComma: bool)
    requires Supported(p)
    requires HasMarker(d)
    requires es != []
    requires NoneMatch(p, es)
    ensures Rewrite(p, Table(es, trailingComma), d)
      == if MarkerOf(d).value.value.name.Some? then Ok(d) else Err(MissingDefault)
  {
    var args := Table(es, trailingComma);
    if trailingComma {
      SkipListed(p, es, []);
      assert args == Listed(es) + [];
    } else {
      var n := |es| - 1;
      assert NoneMatch(p, es[..n]) by {
        forall i | 0 <= i < n
          ensures !MatchTarget(es[..n][i].shortcut, p)
        {
          assert es[..n][i] == es[i];
        }
      }
      SkipListed(p, es[..n], Triple(es[n]));
      assert !MatchTarget(es[n].shortcut, p);
    }
    assert args[0] == Ident(es[0].shortcut) by {
      if trailingComma || |es| > 1 {
        var listed := if trailingComma then es else es[..|es| - 1];
        assert listed[0] == es[0];
        assert Listed(listed)[0] == Ident(es[0].shortcut);
      }
    }
  }

  /** Each malformed table entry is refused with its own error. */
  lemma MalformedTable(p: Platform, s: string, l: string, t: Token, c: char, rest: seq<Token>)
    requires Supported(p)
    ensures !t.Ident? ==> ScanTable(p, [t] + rest) == ScanError(Unexpected(t))
    ensures ScanTable(p, [Ident(s)]) == ScanError(MissingEquals)
    ensures !t.Punct? ==> ScanTable(p, [Ident(s), t] + rest) == ScanError(Unexpected(t))
    ensures c != '=' ==> ScanTable(p, [Ident(s), Punct(c)] + rest) == ScanError(ExpectedPunct('='))
    ensures ScanTable(p, [Ident(s), Punct('=')]) == ScanError(MissingLiteral)
    ensures !t.Literal? ==> ScanTable(p, [Ident(s), Punct('='), t] + rest) == ScanError(Unexpected(t))
    ensures MatchTarget(s, p) && Unquote(l).Err? ==>
      ScanTable(p, [Ident(s), Punct('='), Literal(l)] + rest) == ScanError(Unquote(l).error)
    ensures !MatchTarget(s, p) && !t.Punct? ==>
      ScanTable(p, [Ident(s), Punct('='), Literal(l), t] + rest) == ScanError(Unexpected(t))
    ensures !MatchTarget(s, p) && c != ',' ==>
      ScanTable(p, [Ident(s), Punct('='), Literal(l), Punct(c)] + rest) == ScanError(ExpectedPunct(','))
  {
  }

  /** Every identifier token is spelled as a Rust identifier, as the tokenizer guarantees. */
  predicate IdentifierTokens(args: seq<Token>) {
    forall i :: 0 <= i < |args| && args[i].Ident? ==> IsIdentifier(args[i].text)
  }

  /**
   * The width-only entries `64` and `32` are unreachable from the attribute:
   * on a platform whose OS is none of the three, only they are compiled in, and
   * no identifier is spelled like them, so the table never matches.
   */
  lemma UnknownOsNeverMatches(p: Platform, args: seq<Token>)
    requires Supported(p)
    requires p.os == OtherOs
    requires IdentifierTokens(args)
    ensures !ScanTable(p, args).Matched?
  {
    if ScanTable(p, args).Matched? {
      var i :| 0 <= i < |args| && args[i].Ident? && MatchTarget(args[i].text, p);
      IdentifierNeedsKnownOs(args[i].text, p);
    }
  }

  /** Expanding the attribute's own output again with the same arguments changes nothing. */
  lemma RewriteIdempotent(p: Platform, args: seq<Token>, d: Decl)
    requires Supported(p)
    requires Rewrite(p, args, d).Ok?
    ensures Rewrite(p, args, Rewrite(p, args, d).value) == Rewrite(p, args, d)
  {
  }

  /** A raw string literal keeps its opening quote: only the outer two characters are dropped. */
  lemma UnquoteRawString()
    ensures Unquote("r\"C\"") == Ok("\"C")
  {
    assert "r\"C\""[1..3] == "\"C";
  }

  /** The table `linux64 = "C", win64 = "stdcall"`. */
  function ExampleTable(): seq<Token> {
    [Ident("linux64"), Punct('='), Literal("\"C\""), Punct(','), Ident("win64"), Punct('='), Literal("\"stdcall\"")]
  }

  /** On a 64-bit Linux platform the first entry of the example table names the ABI. */
  lemma ExampleTableOnLinux64(d: Decl)
    requires HasMarker(d)
    ensures Supported(Platform(Linux, 64))
    ensures Rewrite(Platform(Linux, 64), ExampleTable(), d) == Ok(WithAbiName(d, Some("C")))
  {
    var p := Platform(Linux, 64);
    assert Holds(TranslationTable[0].cfg, p);
    NameAt(p, 0, "linux64");
    var linux64 := Entry("linux64", "\"C\"");
    assert linux64.literal[1..|linux64.literal| - 1] == "C";
    assert MatchTarget(linux64.shortcut, p);
    FirstMatchWins(p, d, [], linux64, [Punct(','), Ident("win64"), Punct('='), Literal("\"stdcall\"")]);
    assert Listed([]) + Triple(linux64) + [Punct(','), Ident("win64"), Punct('='), Literal("\"stdcall\"")]
      == ExampleTable();
  }

  /** On a 64-bit Windows platform the second entry of the example table names the ABI. */
  lemma ExampleTableOnWindows64(d: Decl)
    requires HasMarker(d)
    ensures Supported(Platform(Windows, 64))
    ensures Rewrite(Platform(Windows, 64), ExampleTable(), d) == Ok(WithAbiName(d, Some("stdcall")))
  {
    var p := Platform(Windows, 64);
    assert Holds(TranslationTable[3].cfg, p);
    var linux64 := Entry("linux64", "\"C\"");
    var win64 := Entry("win64", "\"stdcall\"");
    assert NoneMatch(p, [linux64]) && MatchTarget(win64.shortcut, p) by {
      NameAt(p, 0, "linux64");
      NameAt(p, 3, "win64");
    }
    assert Unquote(win64.literal) == Ok("stdcall") by {
      assert win64.literal[1..|win64.literal| - 1] == "stdcall";
    }
    ExampleTableEntries();
    FirstMatchWins(p, d, [linux64], win64, []);
  }

  /** The example table as its two entries, the first one comma-terminated. */
  lemma ExampleTableEntries()
    ensures ExampleTable() == Listed([Entry("linux64", "\"C\"")]) + Triple(Entry("win64", "\"stdcall\"")) + []
  {
    var linux64 := Entry("linux64", "\"C\"");
    assert Listed([linux64]) == Triple(linux64) + [Punct(',')] + Listed([linux64][1..]);
    assert [linux64][1..] == [];
  }

  /** On a 64-bit macOS platform no entry of the example table matches. */
  lemma ExampleTableOnMacOs64(d: Decl)
    requires HasMarker(d)
    ensures Supported(Platform(MacOs, 64))
    ensures Rewrite(Platform(MacOs, 64), ExampleTable(), d)
      == if MarkerOf(d).value.value.name.Some? then Ok(d) else Err(MissingDefault)
  {
    var p := Platform(MacOs, 64);
    assert Holds(TranslationTable[5].cfg, p);
    NameAt(p, 0, "linux64");
    NameAt(p, 3, "win64");
    var linux64 := Entry("linux64", "\"C\"");
    var win64 := Entry("win64", "\"stdcall\"");
    NoMatchKeepsDefault(p, d, [linux64, win64], false);
    assert [linux64, win64][..1] == [linux64];
    assert Listed([linux64]) == Triple(linux64) + [Punct(',')] + Listed([linux64][1..]);
    assert [linux64][1..] == [];
    assert Table([linux64, win64], false) == ExampleTable();
  }

  /** `linux = "C", linux64 = "fastcall"` on 64-bit Linux: the earlier, less specific entry wins. */
  lemma ExampleFirstNotMostSpecific(d: Decl)
    requires HasMarker(d)
    ensures Supported(Platform(Linux, 64))
    ensures var args := [Ident("linux"), Punct('='), Literal("\"C\""), Punct(','),
                         Ident("linux64"), Punct('='), Literal("\"fastcall\"")];
      Rewrite(Platform(Linux, 64), args, d) == Ok(WithAbiName(d, Some("C")))
  {
    var p := Platform(Linux, 64);
    assert Holds(TranslationTable[6].cfg, p);
    NameAt(p, 6, "linux");
    var linux := Entry("linux", "\"C\"");
    var rest := [Punct(','), Ident("linux64"), Punct('='), Literal("\"fastcall\"")];
    assert linux.literal[1..|linux.literal| - 1] == "C";
    assert MatchTarget(linux.shortcut, p);
    FirstMatchWins(p, d, [], linux, rest);
    assert Listed([]) + Triple(linux) + rest
      == [Ident("linux"), Punct('='), Literal("\"C\""), Punct(','), Ident("linux64"), Punct('='), Literal("\"fastcall\"")];
  }
}
