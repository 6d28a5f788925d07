/**
 * Comment symbols of one language family: an opener, a continuation prefix
 * and a closer, optionally paired with an alias form that a flag selects.
 */
module Symbols {
  import opened Wrappers

  /** One role as given to the constructor: a plain symbol or a (primary, alias) pair. */
  datatype Role = Plain(symbol: string) | Paired(primary: string, alias: string)
  {
    function Primary(): string {
      match this
      case Plain(s) => s
      case Paired(p, _) => p
    }
  }

  /** The opener, continuation prefix and closer of a comment block. */
  datatype Triple = Triple(first: string, middle: string, last: string)
  {
    /** Every role uses the same symbol, as `#` comments do. */
    predicate Identical() {
      first == middle && middle == last
    }
  }

  datatype SymbolError = InvalidSymbolSet

  /** A family's symbols: the primary triple, the alias triple when pairs were given,
      and the `use_alias` flag that selects which one the accessors return. */
  datatype CommentSymbols = CommentSymbols(primary: Triple, alias: Option<Triple>, useAlias: bool)
  {
    predicate HasAlias() {
      alias.Some?
    }

    /** The triple the `first`, `middle` and `last` accessors currently return:
        the flag switches all three roles together. */
    function Active(): (t: Triple)
      ensures t == primary || (alias.Some? && t == alias.value)
      ensures t == primary <== !useAlias
      ensures alias.Some? && useAlias ==> t == alias.value
    {
      if useAlias && alias.Some? then alias.value else primary
    }

    function First(): string { Active().first }
    function Middle(): string { Active().middle }
    function Last(): string { Active().last }

    predicate Identical() {
      Active().Identical()
    }

    /** Assigning `use_alias`: the only state change a symbol set allows. */
    function SetUseAlias(b: bool): (s: CommentSymbols)
      ensures s.primary == primary && s.alias == alias && s.useAlias == b
    {
      this.(useAlias := b)
    }
  }

  /** True when all three roles were given with the same arity. */
  predicate SameArity(first: Role, middle: Role, last: Role) {
    first.Plain? == middle.Plain? && middle.Plain? == last.Plain?
  }

  /** The constructor: plain strings give a set without alias, pairs a set with one,
      and any mix of the two is rejected. */
  function MakeSymbols(first: Role, middle: Role, last: Role): (r: Result<CommentSymbols, SymbolError>)
    ensures r.Err? <==> !SameArity(first, middle, last)
    ensures r.Ok? ==> !r.value.useAlias
    ensures r.Ok? ==> (r.value.HasAlias() <==> first.Paired?)
    ensures r.Ok? ==> r.value.Active() == Triple(first.Primary(), middle.Primary(), last.Primary())
    ensures r.Ok? && first.Paired? ==>
      r.value.SetUseAlias(true).Active() == Triple(first.alias, middle.alias, last.alias)
  {
    if !SameArity(first, middle, last) then Err(InvalidSymbolSet)
    else
      var primary := Triple(first.Primary(), middle.Primary(), last.Primary());
      if first.Plain? then Ok(CommentSymbols(primary, None, false))
      else Ok(CommentSymbols(primary, Some(Triple(first.alias, middle.alias, last.alias)), false))
  }

  /** `#` comments: every role is `#`. */
  const HashSymbols: CommentSymbols := CommentSymbols(Triple("#", "#", "#"), None, false)

  /** C-style block comments. */
  const StarSymbols: CommentSymbols := CommentSymbols(Triple("/*", " *", " */"), None, false)
}
