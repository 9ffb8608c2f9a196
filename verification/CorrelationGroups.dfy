/** The declarative replacement of an account's correlation groups (routes.rs,
  put_correlation_groups): what is accepted maps each symbol to one group. */
module CorrelationGroups {
  import opened RiskEngine
  import opened Account

  datatype Group = Group(name: string, symbols: seq<Symbol>)

  /** All symbols of all groups, in the order they are listed. */
  function Listed(groups: seq<Group>): seq<Symbol> {
    if groups == [] then [] else Listed(groups[..|groups| - 1]) + groups[|groups| - 1].symbols
  }

  ghost predicate NoRepeats(symbols: seq<Symbol>) {
    forall i, j :: 0 <= i < j < |symbols| ==> symbols[i] != symbols[j]
  }

  ghost predicate WellFormed(groups: seq<Group>) {
    && (forall g :: 0 <= g < |groups| ==> !Blank(groups[g].name))
    && (forall i :: 0 <= i < |Listed(groups)| ==> !Blank(Listed(groups)[i]))
    && NoRepeats(Listed(groups))
  }

  lemma {:induction false} ListedPrefix(groups: seq<Group>, g: nat)
    requires g < |groups|
    ensures Listed(groups[..g]) + groups[g].symbols <= Listed(groups)
    decreases |groups|
  {
    if g < |groups| - 1 {
      var front := groups[..|groups| - 1];
      ListedPrefix(front, g);
      assert front[..g] == groups[..g];
    }
  }

  /** One group's symbols, on top of those of the groups before it. */
  method ValidateSymbols(symbols: seq<Symbol>, before: set<Symbol>, ghost listed: seq<Symbol>)
    returns (seen: set<Symbol>, ok: bool)
    requires SeenAll(before, listed)
    ensures ok ==> SeenAll(seen, listed + symbols)
    ensures !ok ==> exists i :: 0 <= i < |symbols| && (Blank(symbols[i]) || symbols[i] in listed + symbols[..i])
  {
    seen := before;
    assert listed + symbols[..0] == listed;
    for i := 0 to |symbols|
      invariant SeenAll(seen, listed + symbols[..i])
    {
      assert listed + symbols[..i + 1] == (listed + symbols[..i]) + [symbols[i]];
      if Blank(symbols[i]) || symbols[i] in seen {
        return seen, false;
      }
      seen := seen + {symbols[i]};
    }
    assert listed + symbols[..|symbols|] == listed + symbols;
    ok := true;
  }

  /** The handler's validation accepts exactly the well-formed lists. */
  method Validate(groups: seq<Group>) returns (ok: bool)
    ensures ok <==> WellFormed(groups)
  {
    var seen: set<Symbol> := {};
    for g := 0 to |groups|
      invariant forall h :: 0 <= h < g ==> !Blank(groups[h].name)
      invariant SeenAll(seen, Listed(groups[..g]))
    {
      if Blank(groups[g].name) {
        return false;
      }
      seen, ok := ValidateSymbols(groups[g].symbols, seen, Listed(groups[..g]));
      if !ok {
        BadSymbol(groups, g);
        return;
      }
      assert groups[..g + 1][..g] == groups[..g];
    }
    assert groups[..|groups|] == groups;
    return true;
  }

  /** A blank or repeated symbol in group `g` spoils the whole list. */
  lemma BadSymbol(groups: seq<Group>, g: nat)
    requires g < |groups|
    requires var before, symbols := Listed(groups[..g]), groups[g].symbols;
      exists i :: 0 <= i < |symbols| && (Blank(symbols[i]) || symbols[i] in before + symbols[..i])
    ensures !WellFormed(groups)
  {
    ListedPrefix(groups, g);
    var before, symbols := Listed(groups[..g]), groups[g].symbols;
    var i :| 0 <= i < |symbols| && (Blank(symbols[i]) || symbols[i] in before + symbols[..i]);
    assert Listed(groups)[|before| + i] == symbols[i];
    if symbols[i] in before + symbols[..i] {
      assert (before + symbols[..i]) + [symbols[i]] <= before + symbols;
      RepeatFound(groups, before + symbols[..i], symbols[i]);
    }
  }

  ghost predicate SeenAll(seen: set<Symbol>, symbols: seq<Symbol>) {
    && NoRepeats(symbols)
    && (forall symbol :: symbol in seen <==> symbol in symbols)
    && (forall i :: 0 <= i < |symbols| ==> !Blank(symbols[i]))
  }

  lemma RepeatFound(groups: seq<Group>, front: seq<Symbol>, next: Symbol)
    requires next in front && front + [next] <= Listed(groups)
    ensures !NoRepeats(Listed(groups))
  {
    var j :| 0 <= j < |front| && front[j] == next;
    assert Listed(groups)[j] == next && Listed(groups)[|front|] == next;
  }

  /** The names in order; the table has them unique per account. */
  function Names(groups: seq<Group>): (names: seq<string>)
    ensures |names| == |groups| && forall g :: 0 <= g < |groups| ==> names[g] == groups[g].name
  {
    seq(|groups|, g requires 0 <= g < |groups| => groups[g].name)
  }

  class GroupStore {
    var groups: seq<Group>

    constructor ()
      ensures groups == []
    {
      groups := [];
    }

    /** put_correlation_groups: everything is replaced, or the list is refused and
      nothing is; two groups of one name pass validation and fail at the table. */
    method PutCorrelationGroups(body: seq<Group>) returns (ok: bool)
      modifies this
      ensures ok <==> WellFormed(body) && NoRepeats(Names(body))
      ensures groups == if ok then body else old(groups)
    {
      ok := Validate(body);
      if !ok {
        return;
      }
      var inserted: seq<Group> := [];
      var names: set<string> := {};
      for g := 0 to |body|
        invariant inserted == body[..g]
        invariant NoRepeats(Names(body[..g]))
        invariant forall name :: name in names <==> name in Names(body[..g])
      {
        assert Names(body[..g + 1]) == Names(body[..g]) + [body[g].name];
        if body[g].name in names {
          RepeatedName(body, g);
          return false;
        }
        names := names + {body[g].name};
        inserted := inserted + [body[g]];
      }
      assert body[..|body|] == body;
      groups := inserted;
    }
  }

  lemma RepeatedName(groups: seq<Group>, g: nat)
    requires g < |groups| && groups[g].name in Names(groups[..g])
    ensures !NoRepeats(Names(groups))
  {
    var h :| 0 <= h < g && Names(groups[..g])[h] == groups[g].name;
    assert Names(groups)[h] == Names(groups)[g];
  }

  /** The rows written for a list, read back as the engine's symbol-to-group map. */
  function GroupMap(groups: seq<Group>): map<Symbol, string> {
    if groups == [] then map[]
    else
      var last := groups[|groups| - 1];
      GroupMap(groups[..|groups| - 1]) + map symbol | symbol in last.symbols :: last.name
  }

  /** For an accepted list the engine sees every symbol in exactly the group that
    lists it: nothing is overwritten, lost or added. */
  lemma {:induction false} MapReflectsGroups(groups: seq<Group>, symbol: Symbol)
    requires WellFormed(groups)
    ensures symbol in GroupMap(groups) <==> symbol in Listed(groups)
    ensures forall g :: 0 <= g < |groups| && symbol in groups[g].symbols ==>
      symbol in GroupMap(groups) && GroupMap(groups)[symbol] == groups[g].name
    decreases |groups|
  {
    if groups != [] {
      var front, last := groups[..|groups| - 1], groups[|groups| - 1];
      assert forall i :: 0 <= i < |Listed(front)| ==> Listed(groups)[i] == Listed(front)[i];
      MapReflectsGroups(front, symbol);
      forall g | 0 <= g < |front| && symbol in groups[g].symbols
        ensures symbol !in last.symbols && symbol in GroupMap(front) && GroupMap(front)[symbol] == groups[g].name
      {
        assert front[g] == groups[g];
        ListedPrefix(front, g);
        var i :| 0 <= i < |groups[g].symbols| && groups[g].symbols[i] == symbol;
        assert Listed(front)[|Listed(front[..g])| + i] == symbol;
        forall k | 0 <= k < |last.symbols|
          ensures last.symbols[k] != symbol
        {
          assert Listed(groups)[|Listed(front)| + k] == last.symbols[k];
        }
      }
    }
  }
}
