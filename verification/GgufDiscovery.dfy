/**
  Discovery of GGUF quantisations (src/kitt/campaign/gguf_discovery.py).
  The regular expression that reads a quant name off a file name, and fnmatch,
  are parameters.
*/
module GgufDiscovery {
  import opened Basics

  datatype QuantInfo = QuantInfo(quantName: string, files: seq<string>, includePattern: string) {
    /** First file, or first shard, for loading. */
    function PrimaryFile(): string { if files == [] then "" else files[0] }
  }

  function NamesOf(quants: seq<QuantInfo>): seq<string> {
    seq(|quants|, i requires 0 <= i < |quants| => quants[i].quantName)
  }

  // ----- filter_quants -----

  /** `[q for q in quants if p(q.quant_name)]` */
  function Keep(quants: seq<QuantInfo>, p: string -> bool): seq<QuantInfo> {
    if quants == [] then []
    else (if p(quants[0].quantName) then [quants[0]] else []) + Keep(quants[1..], p)
  }

  /** True if some pattern matches the name, as fnmatch decides. */
  predicate AnyMatch(matches: (string, string) -> bool, name: string, patterns: seq<string>) {
    exists i :: 0 <= i < |patterns| && matches(name, patterns[i])
  }

  function NoneOf(matches: (string, string) -> bool, patterns: seq<string>): string -> bool {
    name => !AnyMatch(matches, name, patterns)
  }

  function SomeOf(matches: (string, string) -> bool, patterns: seq<string>): string -> bool {
    name => AnyMatch(matches, name, patterns)
  }

  function FilterQuants(quants: seq<QuantInfo>, skip: seq<string>, includeOnly: seq<string>,
                        matches: (string, string) -> bool): seq<QuantInfo> {
    var kept := if skip == [] then quants else Keep(quants, NoneOf(matches, skip));
    if includeOnly == [] then kept else Keep(kept, SomeOf(matches, includeOnly))
  }

  lemma {:induction false} KeepMembers(quants: seq<QuantInfo>, p: string -> bool)
    ensures forall q :: q in Keep(quants, p) <==> q in quants && p(q.quantName)
  {
    if quants != [] {
      KeepMembers(quants[1..], p);
      assert quants == [quants[0]] + quants[1..];
    }
  }

  lemma NamesCons(q: QuantInfo, rest: seq<QuantInfo>)
    ensures NamesOf([q] + rest) == [q.quantName] + NamesOf(rest)
  {
  }

  lemma {:induction false} KeepNames(quants: seq<QuantInfo>, p: string -> bool)
    ensures forall name :: name in NamesOf(Keep(quants, p)) ==> name in NamesOf(quants)
    ensures Distinct(NamesOf(quants)) ==> Distinct(NamesOf(Keep(quants, p)))
  {
    hide NamesOf, Distinct;
    if quants != [] {
      var first, rest := quants[0], quants[1..];
      KeepNames(rest, p);
      assert quants == [first] + rest;
      NamesCons(first, rest);
      NamesCons(first, Keep(rest, p));
      assert [] + Keep(rest, p) == Keep(rest, p);
      DistinctConcat([first.quantName], NamesOf(rest));
      DistinctConcat([first.quantName], NamesOf(Keep(rest, p)));
    }
  }

  /** Filtering keeps exactly the wanted variants and keeps names distinct. */
  lemma FilterQuantsKeepsDistinct(quants: seq<QuantInfo>, skip: seq<string>, includeOnly: seq<string>,
                                  matches: (string, string) -> bool)
    ensures forall q :: q in FilterQuants(quants, skip, includeOnly, matches) <==>
                        q in quants && !AnyMatch(matches, q.quantName, skip)
                        && (includeOnly != [] ==> AnyMatch(matches, q.quantName, includeOnly))
    ensures Distinct(NamesOf(quants)) ==> Distinct(NamesOf(FilterQuants(quants, skip, includeOnly, matches)))
  {
    hide Keep, NamesOf, Distinct, AnyMatch;
    NothingMatchesNone(matches);
    var kept := if skip == [] then quants else Keep(quants, NoneOf(matches, skip));
    KeepMembers(quants, NoneOf(matches, skip));
    KeepNames(quants, NoneOf(matches, skip));
    KeepMembers(kept, SomeOf(matches, includeOnly));
    KeepNames(kept, SomeOf(matches, includeOnly));
  }

  lemma NothingMatchesNone(matches: (string, string) -> bool)
    ensures forall name :: !AnyMatch(matches, name, [])
  {
  }
}
