/**
 * The target matcher (`match_target`): a fixed, ordered table of shortcut names,
 * each guarded by a condition on the platform the macro crate is compiled
 * for (the host, when cross-compiling). That platform is the explicit
 * parameter `p` instead of conditional compilation.
 */
module Target {

  datatype Os = Linux | Windows | MacOs | OtherOs

  /** The facts about the macro crate's own platform that the table consults. */
  datatype Platform = Platform(os: Os, pointerWidth: nat)

  /** The three shapes of condition the table uses. */
  datatype Cfg =
    | OsAndWidth(os: Os, width: nat)
    | OsOnly(os: Os)
    | WidthOnly(width: nat)

  predicate Holds(c: Cfg, p: Platform) {
    match c
    case OsAndWidth(os, width) => p.os == os && p.pointerWidth == width
    case OsOnly(os) => p.os == os
    case WidthOnly(width) => p.pointerWidth == width
  }

  datatype Shortcut = Shortcut(name: string, cfg: Cfg)

  /** The translation table, in the order its entries are tried. */
  const TranslationTable: seq<Shortcut> := [
    Shortcut("linux64", OsAndWidth(Linux, 64)),
    Shortcut("linux32", OsAndWidth(Linux, 32)),
    Shortcut("win32", OsAndWidth(Windows, 32)),
    Shortcut("win64", OsAndWidth(Windows, 64)),
    Shortcut("macos32", OsAndWidth(MacOs, 32)),
    Shortcut("macos64", OsAndWidth(MacOs, 64)),
    Shortcut("linux", OsOnly(Linux)),
    Shortcut("win", OsOnly(Windows)),
    Shortcut("macos", OsOnly(MacOs)),
    Shortcut("64", WidthOnly(64)),
    Shortcut("32", WidthOnly(32))
  ]

  /** Entry `i` of the table is compiled in on `p` and is spelled `s`. */
  predicate EntryMatches(i: nat, s: string, p: Platform)
    requires i < |TranslationTable|
  {
    TranslationTable[i].name == s && Holds(TranslationTable[i].cfg, p)
  }

  /**
   * A platform is supported when at least one entry of the table is compiled in
   * for it; on any other platform the macro crate refuses to build.
   */
  predicate Supported(p: Platform) {
    exists i :: 0 <= i < |TranslationTable| && Holds(TranslationTable[i].cfg, p)
  }

  /** Tries the entries from index `i` on, returning as soon as one is spelled `s`. */
  function MatchFrom(s: string, p: Platform, i: nat): (r: bool)
    requires i <= |TranslationTable|
    ensures r <==> exists j :: i <= j < |TranslationTable| && EntryMatches(j, s, p)
    decreases |TranslationTable| - i
  {
    if i == |TranslationTable| then false
    else if Holds(TranslationTable[i].cfg, p) && TranslationTable[i].name == s then
      assert EntryMatches(i, s, p);
      true
    else MatchFrom(s, p, i + 1)
  }

  /** `match_target(triplet)`: does the shortcut `s` denote the target `p`? */
  function MatchTarget(s: string, p: Platform): (r: bool)
    requires Supported(p)
    ensures r <==> exists j :: 0 <= j < |TranslationTable| && EntryMatches(j, s, p)
  {
    MatchFrom(s, p, 0)
  }

  /** The eleven spellings the table knows. */
  const ShortcutNames: set<string> :=
    {"linux64", "linux32", "win32", "win64", "macos32", "macos64", "linux", "win", "macos", "64", "32"}

  /** Which platforms are supported: a known OS, or any OS with a 32- or 64-bit pointer width. */
  lemma SupportedIff(p: Platform)
    ensures Supported(p) <==> p.os != OtherOs || p.pointerWidth == 32 || p.pointerWidth == 64
  {
    if p.os != OtherOs {
      var i := match p.os case Linux => 6 case Windows => 7 case MacOs => 8;
      assert Holds(TranslationTable[i].cfg, p);
    } else if p.pointerWidth == 64 {
      assert Holds(TranslationTable[9].cfg, p);
    } else if p.pointerWidth == 32 {
      assert Holds(TranslationTable[10].cfg, p);
    } else {
      forall i | 0 <= i < |TranslationTable|
        ensures !Holds(TranslationTable[i].cfg, p)
      {
      }
    }
  }

  /** A name outside the table's vocabulary never denotes the platform. */
  lemma UnknownNameNeverMatches(s: string, p: Platform)
    requires Supported(p)
    requires s !in ShortcutNames
    ensures !MatchTarget(s, p)
  {
  }

  /** What each of the eleven shortcuts means, stated independently of the table. */
  lemma ShortcutMeaning(p: Platform)
    requires Supported(p)
    ensures MatchTarget("linux64", p) <==> p.os == Linux && p.pointerWidth == 64
    ensures MatchTarget("linux32", p) <==> p.os == Linux && p.pointerWidth == 32
    ensures MatchTarget("win32", p) <==> p.os == Windows && p.pointerWidth == 32
    ensures MatchTarget("win64", p) <==> p.os == Windows && p.pointerWidth == 64
    ensures MatchTarget("macos32", p) <==> p.os == MacOs && p.pointerWidth == 32
    ensures MatchTarget("macos64", p) <==> p.os == MacOs && p.pointerWidth == 64
    ensures MatchTarget("linux", p) <==> p.os == Linux
    ensures MatchTarget("win", p) <==> p.os == Windows
    ensures MatchTarget("macos", p) <==> p.os == MacOs
    ensures MatchTarget("64", p) <==> p.pointerWidth == 64
    ensures MatchTarget("32", p) <==> p.pointerWidth == 32
  {
    NameAt(p, 0, "linux64");
    NameAt(p, 1, "linux32");
    NameAt(p, 2, "win32");
    NameAt(p, 3, "win64");
    NameAt(p, 4, "macos32");
    NameAt(p, 5, "macos64");
    NameAt(p, 6, "linux");
    NameAt(p, 7, "win");
    NameAt(p, 8, "macos");
    NameAt(p, 9, "64");
    NameAt(p, 10, "32");
  }

  /** Every spelling occurs in the table exactly once, so it denotes the platform iff its own condition holds. */
  lemma NameAt(p: Platform, i: nat, s: string)
    requires Supported(p)
    requires i < |TranslationTable| && TranslationTable[i].name == s
    ensures MatchTarget(s, p) <==> Holds(TranslationTable[i].cfg, p)
  {
  }

  /** The leading character of a Rust identifier is never a digit. */
  predicate IsIdentifier(s: string) {
    |s| > 0 && !('0' <= s[0] <= '9')
  }

  /**
   * Only identifiers are ever looked up, so the entries "64" and "32" can
   * never be the ones that match: only the first nine entries matter.
   */
  lemma IdentifiersMissWidthShortcuts(s: string, p: Platform)
    requires Supported(p)
    requires IsIdentifier(s)
    ensures MatchTarget(s, p) <==> exists j :: 0 <= j < 9 && EntryMatches(j, s, p)
  {
  }

  /** An identifier can denote only a platform whose OS is one of the three the table names. */
  lemma IdentifierNeedsKnownOs(s: string, p: Platform)
    requires Supported(p)
    requires IsIdentifier(s)
    requires MatchTarget(s, p)
    ensures p.os != OtherOs
  {
    IdentifiersMissWidthShortcuts(s, p);
    var j :| 0 <= j < 9 && EntryMatches(j, s, p);
    assert TranslationTable[j].cfg.OsAndWidth? || TranslationTable[j].cfg.OsOnly?;
  }
}
