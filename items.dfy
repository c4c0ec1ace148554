/**
 * Declarations with a calling-convention marker: which kind a declaration is
 * parsed as, where its marker lives, and how the marker's name is rewritten.
 */
module Items {
  import opened Wrappers
  import opened Syntax

  /*
   * Classification
   */

  /** What the parser made of the declaration when asked for each kind. */
  datatype ParseAttempts = ParseAttempts(
    asItemFn: Option<Decl>,
    asTypeBareFn: Option<Decl>,
    asItemForeignMod: Option<Decl>,
    asItemStatic: Option<Decl>,
    asItemType: Option<Decl>)

  /** Each attempt, when it succeeds, yields a declaration of its own kind. */
  predicate KindsAgree(a: ParseAttempts) {
    && (a.asItemFn.Some? ==> a.asItemFn.value.ItemFn?)
    && (a.asTypeBareFn.Some? ==> a.asTypeBareFn.value.TypeBareFn?)
    && (a.asItemForeignMod.Some? ==> a.asItemForeignMod.value.ItemForeignMod?)
    && (a.asItemStatic.Some? ==> a.asItemStatic.value.ItemStatic?)
    && (a.asItemType.Some? ==> a.asItemType.value.ItemType?)
  }

  /** The attempts in the order the kinds are tried. */
  function Candidates(a: ParseAttempts): (s: seq<Option<Decl>>)
    ensures |s| == 5
  {
    [a.asItemFn, a.asTypeBareFn, a.asItemForeignMod, a.asItemStatic, a.asItemType]
  }

  /** The first present element, if any. */
  function FirstSome<T>(s: seq<Option<T>>): (r: Option<T>)
    ensures r.None? <==> forall i :: 0 <= i < |s| ==> s[i].None?
    ensures r.Some? ==> exists i :: 0 <= i < |s| && s[i] == r && forall j :: 0 <= j < i ==> s[j].None?
  {
    if s == [] then None
    else if s[0].Some? then s[0]
    else
      var r := FirstSome(s[1..]);
      assert r.Some? ==> exists i :: 0 < i < |s| && s[i] == r && forall j :: 0 <= j < i ==> s[j].None? by {
        if r.Some? {
          var i :| 0 <= i < |s[1..]| && s[1..][i] == r && forall j :: 0 <= j < i ==> s[1..][j].None?;
          assert forall j :: 0 < j < i + 1 ==> s[j] == s[1..][j - 1];
        }
      }
      r
  }

  /** `parse_any_mutable_abi`: the kinds are tried in a fixed order and the first that parses wins. */
  function Classify(a: ParseAttempts): (r: Option<Decl>)
    ensures a.asItemFn.Some? ==> r == a.asItemFn
    ensures a.asItemFn.None? && a.asTypeBareFn.Some? ==> r == a.asTypeBareFn
    ensures a.asItemFn.None? && a.asTypeBareFn.None? && a.asItemForeignMod.Some? ==> r == a.asItemForeignMod
    ensures a.asItemFn.None? && a.asTypeBareFn.None? && a.asItemForeignMod.None? && a.asItemStatic.Some?
      ==> r == a.asItemStatic
    ensures a.asItemFn.None? && a.asTypeBareFn.None? && a.asItemForeignMod.None? && a.asItemStatic.None?
      ==> r == a.asItemType
  {
    var s := Candidates(a);
    var r := FirstSome(s);
    assert s[0] == a.asItemFn && s[1] == a.asTypeBareFn && s[2] == a.asItemForeignMod;
    assert s[3] == a.asItemStatic && s[4] == a.asItemType;
    assert r.Some? ==> (
      || r == s[0]
      || (s[0].None? && r == s[1])
      || (s[0].None? && s[1].None? && r == s[2])
      || (s[0].None? && s[1].None? && s[2].None? && r == s[3])
      || (s[0].None? && s[1].None? && s[2].None? && s[3].None? && r == s[4])) by {
      if r.Some? {
        var i :| 0 <= i < |s| && s[i] == r && forall j :: 0 <= j < i ==> s[j].None?;
        assert i < 5;
      }
    }
    r
  }

  /** A declaration is taken as a type alias only when no other kind parses it. */
  lemma AliasOnlyAsLastResort(a: ParseAttempts)
    requires KindsAgree(a)
    requires Classify(a).Some? && Classify(a).value.ItemType?
    ensures a.asItemFn.None? && a.asTypeBareFn.None? && a.asItemForeignMod.None? && a.asItemStatic.None?
    ensures Classify(a) == a.asItemType
  {
  }

  /*
   * The marker of each kind
   */

  /** The aliased type of a type alias, printed and parsed again as a bare fn type. */
  function ReparseBareFn(ty: Type): Option<BareFn> {
    match ty
    case BareFnType(f) => Some(f)
    case OtherType(_) => None
  }

  /** `SynFn::abi` of each kind, as a value: the marker, `None` without `extern`, or the failure. */
  function MarkerOf(d: Decl): (r: Result<Option<Abi>, Error>)
    ensures r.Err? <==> (d.ItemStatic? || d.ItemType?) && d.ty.OtherType?
    ensures r.Err? ==> r.error == if d.ItemStatic? then StaticNotBareFn else AliasNotBareFn
    ensures d.ItemForeignMod? ==> r == Ok(Some(d.blockAbi))
    ensures d.ItemFn? ==> r == Ok(d.sigAbi)
  {
    match d
    case ItemFn(m, _) => Ok(m)
    case TypeBareFn(f) => Ok(f.abi)
    case ItemForeignMod(m, _) => Ok(Some(m))
    case ItemStatic(ty, _) =>
      if ty.BareFnType? then Ok(ty.bareFn.abi) else Err(StaticNotBareFn)
    case ItemType(ty, _) =>
      match ReparseBareFn(ty)
      case Some(alias) => Ok(alias.abi)
      case None => Err(AliasNotBareFn)
  }

  predicate HasMarker(d: Decl) {
    MarkerOf(d).Ok? && MarkerOf(d).value.Some?
  }

  /** The declaration with its marker blanked out: everything the rewrite must leave alone. */
  function Skeleton(d: Decl): Decl {
    match d
    case ItemFn(_, rest) => ItemFn(None, rest)
    case TypeBareFn(f) => TypeBareFn(f.(abi := None))
    case ItemForeignMod(_, rest) => ItemForeignMod(Abi(None), rest)
    case ItemStatic(ty, rest) =>
      if ty.BareFnType? then ItemStatic(BareFnType(ty.bareFn.(abi := None)), rest) else d
    case ItemType(ty, rest) =>
      if ty.BareFnType? then ItemType(BareFnType(ty.bareFn.(abi := None)), rest) else d
  }

  /** A bare fn type whose existing marker now carries `name`. */
  function Renamed(f: BareFn, name: Option<string>): BareFn
    requires f.abi.Some?
  {
    f.(abi := Some(f.abi.value.(name := name)))
  }

  /**
   * `SynFn::set_abi` of each kind, as a value: the marker now names `name`,
   * and nothing else of the declaration changed. A type alias gets its
   * re-parsed bare fn type back as its aliased type.
   */
  function WithAbiName(d: Decl, name: Option<string>): (r: Decl)
    requires HasMarker(d)
    ensures MarkerOf(r) == Ok(Some(Abi(name)))
    ensures Skeleton(r) == Skeleton(d)
  {
    match d
    case ItemFn(m, rest) => ItemFn(Some(m.value.(name := name)), rest)
    case TypeBareFn(f) => TypeBareFn(Renamed(f, name))
    case ItemForeignMod(m, rest) => ItemForeignMod(m.(name := name), rest)
    case ItemStatic(ty, rest) => ItemStatic(BareFnType(Renamed(ty.bareFn, name)), rest)
    case ItemType(ty, rest) => ItemType(BareFnType(Renamed(ReparseBareFn(ty).value, name)), rest)
  }

  /** A declaration is determined by its skeleton and its marker. */
  lemma SkeletonAndMarkerDetermine(x: Decl, y: Decl)
    requires Skeleton(x) == Skeleton(y)
    requires MarkerOf(x) == MarkerOf(y)
    ensures x == y
  {
  }

  /** Setting a name twice is setting it once. */
  lemma WithAbiNameIdempotent(d: Decl, name: Option<string>)
    requires HasMarker(d)
    ensures WithAbiName(WithAbiName(d, name), name) == WithAbiName(d, name)
  {
  }

  /** A foreign block always carries a marker, whether or not it names an ABI. */
  lemma ForeignModHasMarker(m: Abi, rest: string)
    ensures HasMarker(ItemForeignMod(m, rest))
    ensures MarkerOf(ItemForeignMod(m, rest)).value.value == m
  {
  }

  /*
   * The marker handle and the declaration as a mutable object
   */

  /**
   * A handle on a marker: either borrowed from the declaration that owns it,
   * so that writes through it reach the declaration, or a detached copy.
   */
  datatype MaybeMutableAbi = Mutable(owner: Item) | Owned(copy: Abi)

  /** `Deref`: the marker a handle designates. */
  function Deref(h: MaybeMutableAbi): (r: Abi)
    reads if h.Mutable? then {h.owner} else {}
    requires h.Mutable? ==> HasMarker(h.owner.node)
    ensures h.Mutable? ==> MarkerOf(h.owner.node) == Ok(Some(r))
    ensures h.Owned? ==> r == h.copy
  {
    match h
    case Mutable(owner) => MarkerOf(owner.node).value.value
    case Owned(copy) => copy
  }

  /**
   * `DerefMut` followed by an assignment to the marker's name: through a
   * borrowed handle it rewrites the owner's marker; through a detached copy
   * it changes the copy only and no declaration sees it.
   */
  method AssignName(h: MaybeMutableAbi, name: Option<string>) returns (h': MaybeMutableAbi)
    requires h.Mutable? ==> HasMarker(h.owner.node)
    modifies if h.Mutable? then {h.owner} else {}
    ensures h.Mutable? ==> h' == h && h.owner.node == WithAbiName(old(h.owner.node), name)
    ensures h.Owned? ==> h' == Owned(h.copy.(name := name))
    ensures h'.Mutable? ==> HasMarker(h'.owner.node)
    ensures Deref(h') == Abi(name)
  {
    match h
    case Mutable(owner) =>
      owner.node := WithAbiName(owner.node, name);
      h' := h;
    case Owned(copy) =>
      h' := Owned(copy.(name := name));
  }

  /** The parsed declaration, owned and updated in place by the expansion. */
  class Item {
    var node: Decl

    constructor (node: Decl)
      ensures this.node == node
    {
      this.node := node;
    }

    /**
     * `SynFn::abi`: a handle on the marker, borrowed from this declaration for
     * every kind but a type alias, whose aliased type is re-parsed into a copy.
     */
    method GetAbi() returns (r: Result<Option<MaybeMutableAbi>, Error>)
      ensures MarkerOf(node).Err? ==> r == Err(MarkerOf(node).error)
      ensures MarkerOf(node).Ok? ==> r.Ok? && (r.value.Some? <==> MarkerOf(node).value.Some?)
      ensures r.Ok? && r.value.Some? && !node.ItemType? ==> r.value.value == Mutable(this)
      ensures r.Ok? && r.value.Some? && node.ItemType? ==> r.value.value == Owned(MarkerOf(node).value.value)
    {
      match node
      case ItemFn(m, _) =>
        r := Ok(if m.Some? then Some(Mutable(this)) else None);
      case TypeBareFn(f) =>
        r := Ok(if f.abi.Some? then Some(Mutable(this)) else None);
      case ItemForeignMod(_, _) =>
        r := Ok(Some(Mutable(this)));
      case ItemStatic(ty, _) =>
        if !ty.BareFnType? {
          r := Err(StaticNotBareFn);
        } else {
          r := Ok(if ty.bareFn.abi.Some? then Some(Mutable(this)) else None);
        }
      case ItemType(ty, _) =>
        var alias := ReparseBareFn(ty);
        if alias.None? {
          r := Err(AliasNotBareFn);
        } else {
          r := Ok(if alias.value.abi.Some? then Some(Owned(alias.value.abi.value)) else None);
        }
    }

    /**
     * `SynFn::set_abi`: writes `name` into the marker. Most kinds write through
     * the borrowed handle; a static reaches into its bare fn type; a type alias
     * renames a re-parsed copy of its aliased type and stores the copy back.
     */
    method SetAbi(name: Option<string>)
      requires HasMarker(node)
      modifies this
      ensures node == WithAbiName(old(node), name)
    {
      match node
      case ItemStatic(ty, rest) =>
        node := ItemStatic(BareFnType(Renamed(ty.bareFn, name)), rest);
      case ItemType(ty, rest) =>
        var alias := ReparseBareFn(ty).value;
        alias := Renamed(alias, name);
        node := ItemType(BareFnType(alias), rest);
      case _ =>
        var h := GetAbi();
        var written := AssignName(h.value.value, name);
    }
  }
}
