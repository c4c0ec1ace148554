/**
 * The syntax the attribute works on: the argument tokens, the declarations
 * that carry a calling-convention marker, and the ways an expansion aborts.
 * Everything of a declaration other than its marker is kept as opaque text.
 */
module Syntax {
  import opened Wrappers

  /** One argument token of the attribute; a punctuation token is a single character. */
  datatype Token =
    | Ident(text: string)
    | Punct(ch: char)
    | Literal(text: string)
    | Group(text: string)

  /** The marker `extern` with its optional ABI name. */
  datatype Abi = Abi(name: Option<string>)

  /** A bare function-pointer type: an optional marker and its signature. */
  datatype BareFn = BareFn(abi: Option<Abi>, signature: string)

  /** The type of a static or the aliased type of a type alias. */
  datatype Type = BareFnType(bareFn: BareFn) | OtherType(text: string)

  /** The five kinds of declaration the attribute accepts. */
  datatype Decl =
    | ItemFn(sigAbi: Option<Abi>, rest: string)
    | TypeBareFn(bareFn: BareFn)
    | ItemForeignMod(blockAbi: Abi, rest: string)
    | ItemStatic(ty: Type, rest: string)
    | ItemType(ty: Type, rest: string)

  /** Every way an expansion aborts, one constructor per distinguishable failure. */
  datatype Error =
    | UnsupportedItem             // no kind parses the declaration
    | StaticNotBareFn             // a static whose type is not a bare fn type
    | AliasNotBareFn              // a type alias whose aliased type is not a bare fn type
    | MissingExtern               // the declaration has no `extern` marker
    | NoArguments                 // the argument list is empty
    | TrailingArgument            // a token after the direct-mode literal
    | LiteralTooShort(text: string) // a literal too short to drop its two outer characters
    | NotCharBoundary(text: string) // a literal whose first or last character is not ASCII, so a byte slice would split it
    | Unexpected(found: Token)    // a token of the wrong kind
    | ExpectedPunct(expected: char) // a punctuation token other than the one required
    | MissingEquals               // the argument list ends after a shortcut
    | MissingLiteral              // the argument list ends after `=`
    | MissingDefault              // no entry matched and the marker names no ABI
}
