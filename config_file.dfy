/**
 * Accessors of a parsed configuration file (`ConfigFile`): a multimap from option names to raw
 * string values, read either raw or through a conversion that may fail.
 *
 * `boost::lexical_cast<T>` is not part of this model: it is a parameter `cast` that yields `None`
 * where the library throws `bad_lexical_cast`, and a thrown cast is the result `BadLexicalCast`.
 */
module Config {
  import opened Common
  import OptionalMap

  /** What one value contributes to a collecting accessor: itself, unless it is empty and empty values are skipped. */
  function Keep(v: string, includingEmpty: bool): (r: seq<string>)
  {
    if includingEmpty || v != "" then [v] else []
  }

  /** The values among the first `n` of `vs` that a collecting accessor keeps, in order. */
  function SelectedUpTo(vs: seq<string>, n: nat, includingEmpty: bool): (r: seq<string>)
    requires n <= |vs|
    ensures |r| <= n
    decreases n
  {
    if n == 0 then [] else SelectedUpTo(vs, n - 1, includingEmpty) + Keep(vs[n - 1], includingEmpty)
  }

  /** The values of a whole range that a collecting accessor keeps. */
  function Selected(vs: seq<string>, includingEmpty: bool): (r: seq<string>)
  {
    SelectedUpTo(vs, |vs|, includingEmpty)
  }

  /** The selection keeps exactly the values that are non-empty or admitted by `includingEmpty`. */
  lemma {:induction false} SelectedMembers(vs: seq<string>, n: nat, includingEmpty: bool, v: string)
    requires n <= |vs|
    ensures v in SelectedUpTo(vs, n, includingEmpty) <==> v in vs[..n] && (includingEmpty || v != "")
    decreases n
  {
    if n > 0 {
      SelectedMembers(vs, n - 1, includingEmpty, v);
      assert vs[..n] == vs[..n - 1] + [vs[n - 1]];
    }
  }

  /** Keeping every value keeps the range as it is. */
  lemma {:induction false} SelectedIncludingEmpty(vs: seq<string>, n: nat)
    requires n <= |vs|
    ensures SelectedUpTo(vs, n, true) == vs[..n]
    decreases n
  {
    if n > 0 {
      SelectedIncludingEmpty(vs, n - 1);
      assert vs[..n] == vs[..n - 1] + [vs[n - 1]];
    }
  }

  /** The selection of a shorter prefix is a prefix of the selection of a longer one. */
  lemma {:induction false} SelectedGrows(vs: seq<string>, i: nat, j: nat, includingEmpty: bool)
    requires i <= j <= |vs|
    ensures |SelectedUpTo(vs, i, includingEmpty)| <= |SelectedUpTo(vs, j, includingEmpty)|
    ensures SelectedUpTo(vs, j, includingEmpty)[..|SelectedUpTo(vs, i, includingEmpty)|] == SelectedUpTo(vs, i, includingEmpty)
    decreases j
  {
    if i < j {
      SelectedGrows(vs, i, j - 1, includingEmpty);
      var a, b := SelectedUpTo(vs, i, includingEmpty), SelectedUpTo(vs, j - 1, includingEmpty);
      assert (b + Keep(vs[j - 1], includingEmpty))[..|a|] == b[..|a|];
    }
  }

  /** Every value converts. */
  ghost predicate AllConvert<T>(vs: seq<string>, cast: string -> Option<T>)
  {
    forall i {:trigger cast(vs[i])} :: 0 <= i < |vs| ==> cast(vs[i]).Some?
  }

  /** `vs[k]` is the first value whose conversion fails. */
  ghost predicate FirstFailure<T>(vs: seq<string>, k: nat, cast: string -> Option<T>)
  {
    k < |vs| && cast(vs[k]).None? && AllConvert(vs[..k], cast)
  }

  /** The converted values, defined when every conversion succeeds. */
  function CastAll<T>(vs: seq<string>, cast: string -> Option<T>): (r: seq<T>)
    requires AllConvert(vs, cast)
    ensures |r| == |vs|
    decreases |vs|
  {
    if vs == [] then []
    else
      assert AllConvert(vs[..|vs| - 1], cast);
      CastAll(vs[..|vs| - 1], cast) + [cast(vs[|vs| - 1]).value]
  }

  /** Each converted value is the conversion of the raw value at the same position. */
  lemma {:induction false} CastAllAt<T>(vs: seq<string>, cast: string -> Option<T>, i: nat)
    requires AllConvert(vs, cast) && i < |vs|
    ensures Some(CastAll(vs, cast)[i]) == cast(vs[i])
    decreases |vs|
  {
    if i < |vs| - 1 {
      assert AllConvert(vs[..|vs| - 1], cast);
      CastAllAt(vs[..|vs| - 1], cast, i);
    }
  }

  lemma {:induction false} CastAllSnoc<T>(vs: seq<string>, v: string, cast: string -> Option<T>)
    requires AllConvert(vs, cast) && cast(v).Some?
    ensures AllConvert(vs + [v], cast)
    ensures CastAll(vs + [v], cast) == CastAll(vs, cast) + [cast(v).value]
  {
    assert (vs + [v])[..|vs|] == vs;
  }

  /** A value kept at `range[i]` is the next element of the whole selection after those kept before it. */
  lemma {:induction false} SelectedNext(range: seq<string>, i: nat, includingEmpty: bool)
    requires i < |range| && (includingEmpty || range[i] != "")
    ensures |SelectedUpTo(range, i, includingEmpty)| < |Selected(range, includingEmpty)|
    ensures Selected(range, includingEmpty)[..|SelectedUpTo(range, i, includingEmpty)|] == SelectedUpTo(range, i, includingEmpty)
    ensures Selected(range, includingEmpty)[|SelectedUpTo(range, i, includingEmpty)|] == range[i]
  {
    var before := SelectedUpTo(range, i, includingEmpty);
    var sel := Selected(range, includingEmpty);
    var k := |before|;
    assert SelectedUpTo(range, i + 1, includingEmpty) == before + [range[i]];
    SelectedGrows(range, i + 1, |range|, includingEmpty);
    assert sel[..k] == sel[..k + 1][..k];
    assert sel[k] == sel[..k + 1][k];
  }

  /** A value that fails to convert where it is kept is the first failure of the whole selection. */
  lemma {:induction false} FailureAt<T>(range: seq<string>, i: nat, includingEmpty: bool, cast: string -> Option<T>,
                                        kept: seq<string>, vals: seq<T>, acc: seq<T>)
    requires i < |range| && (includingEmpty || range[i] != "") && cast(range[i]).None?
    requires kept == SelectedUpTo(range, i, includingEmpty) && AllConvert(kept, cast)
    requires acc == vals + CastAll(kept, cast)
    ensures |vals| <= |acc|
    ensures FirstFailure(Selected(range, includingEmpty), |acc| - |vals|, cast)
    ensures acc == vals + CastAll(Selected(range, includingEmpty)[..|acc| - |vals|], cast)
  {
    SelectedNext(range, i, includingEmpty);
    assert |acc| - |vals| == |kept|;
  }

  /** A kept value that converts extends both the selection and the converted values. */
  lemma {:induction false} ConvertedStep<T>(range: seq<string>, i: nat, includingEmpty: bool, cast: string -> Option<T>,
                                            kept: seq<string>, vals: seq<T>, acc: seq<T>)
    requires i < |range| && (includingEmpty || range[i] != "") && cast(range[i]).Some?
    requires kept == SelectedUpTo(range, i, includingEmpty) && AllConvert(kept, cast)
    requires acc == vals + CastAll(kept, cast)
    ensures kept + [range[i]] == SelectedUpTo(range, i + 1, includingEmpty)
    ensures AllConvert(kept + [range[i]], cast)
    ensures acc + [cast(range[i]).value] == vals + CastAll(kept + [range[i]], cast)
  {
    CastAllSnoc(kept, range[i], cast);
  }

  /** A skipped value leaves the selection as it is. */
  lemma {:induction false} SkippedStep(range: seq<string>, i: nat, includingEmpty: bool)
    requires i < |range| && !includingEmpty && range[i] == ""
    ensures SelectedUpTo(range, i + 1, includingEmpty) == SelectedUpTo(range, i, includingEmpty)
  {
    assert Keep(range[i], includingEmpty) == [];
  }

  /** Outcome of the `bool`-returning `get` overloads: whether `val` was assigned, and its value. */
  datatype Lookup<T> = Lookup(wasSet: bool, val: T) | LookupBadCast

  /** Outcome of an accessor that returns a converted value or throws `bad_lexical_cast`. */
  datatype Converted<T> = Converted(val: T) | BadLexicalCast

  class ConfigFile {
    var contents: seq<OptionalMap.Entry>

    predicate Empty()
      reads this
    {
      contents == []
    }

    method Clear()
      modifies this
      ensures Empty() && contents == []
    {
      contents := [];
    }

    /** Member swap; `rhs` may be this very object. */
    method Swap(rhs: ConfigFile)
      modifies this, rhs
      ensures contents == old(rhs.contents) && rhs.contents == old(contents)
    {
      var mine := contents;
      contents := rhs.contents;
      rhs.contents := mine;
    }

    /** The values stored under `key` that the collecting accessors keep. */
    ghost function Kept(key: string, includingEmpty: bool): seq<string>
      reads this
    {
      Selected(OptionalMap.Range(contents, key), includingEmpty)
    }

    /** The first value stored under `key`, or the empty string. */
    function GetRaw(key: string): (v: string)
      reads this
      ensures v == if OptionalMap.Range(contents, key) == [] then "" else OptionalMap.Range(contents, key)[0]
    {
      OptionalMap.GetIsFirstOfRange(contents, key);
      OptionalMap.Get(contents, key)
    }

    /**
     * Appends to `vals` (without clearing it) every value stored under `key`, in order, skipping
     * empty values unless `includingEmpty`; `count` is the number appended.
     */
    method GetRawAll(vals: seq<string>, key: string, includingEmpty: bool) returns (vals': seq<string>, count: nat)
      ensures vals' == vals + Kept(key, includingEmpty)
      ensures count == |vals'| - |vals|
    {
      var range := OptionalMap.Range(contents, key);
      vals', count := vals, 0;
      var i := 0;
      while i < |range|
        invariant 0 <= i <= |range|
        invariant vals' == vals + SelectedUpTo(range, i, includingEmpty)
        invariant count == |SelectedUpTo(range, i, includingEmpty)|
      {
        if includingEmpty || range[i] != "" {
          vals' := vals' + [range[i]];
          count := count + 1;
        }
        i := i + 1;
      }
    }

    /** `get(val, key)`: leaves `val` alone and answers false when the raw value is empty. */
    function GetInto<T>(val: T, key: string, cast: string -> Option<T>): (r: Lookup<T>)
      reads this
      ensures r == Lookup(false, val) <==> GetRaw(key) == ""
      ensures r.Lookup? && r.wasSet ==> Some(r.val) == cast(GetRaw(key))
      ensures r.LookupBadCast? <==> GetRaw(key) != "" && cast(GetRaw(key)).None?
    {
      var str := GetRaw(key);
      if str == "" then Lookup(false, val)
      else match cast(str)
        case Some(v) => Lookup(true, v)
        case None => LookupBadCast
    }

    /** `get(val, key, defVal)`: assigns `defVal` and answers false when the raw value is empty. */
    function GetIntoOr<T>(val: T, key: string, defVal: T, cast: string -> Option<T>): (r: Lookup<T>)
      reads this
      ensures r == Lookup(false, defVal) <==> GetRaw(key) == ""
      ensures r.Lookup? && r.wasSet ==> Some(r.val) == cast(GetRaw(key))
      ensures r.LookupBadCast? <==> GetRaw(key) != "" && cast(GetRaw(key)).None?
    {
      var str := GetRaw(key);
      if str == "" then Lookup(false, defVal)
      else match cast(str)
        case Some(v) => Lookup(true, v)
        case None => LookupBadCast
    }

    /** `get<T>(key, defVal)`: the converted value, or `defVal` when the raw value is empty. */
    function GetOr<T>(key: string, defVal: T, cast: string -> Option<T>): (r: Converted<T>)
      reads this
      ensures GetRaw(key) == "" ==> r == Converted(defVal)
      ensures GetRaw(key) != "" && cast(GetRaw(key)).Some? ==> r == Converted(cast(GetRaw(key)).value)
      ensures GetRaw(key) != "" && cast(GetRaw(key)).None? ==> r.BadLexicalCast?
    {
      match GetIntoOr(defVal, key, defVal, cast)
      case Lookup(_, v) => Converted(v)
      case LookupBadCast => BadLexicalCast
    }

    /** `get<T>(key)`: as `GetOr` with the value-initialised `T()`, given here as `zero`. */
    function GetValue<T>(key: string, zero: T, cast: string -> Option<T>): (r: Converted<T>)
      reads this
      ensures GetRaw(key) == "" ==> r == Converted(zero)
      ensures GetRaw(key) != "" && cast(GetRaw(key)).Some? ==> r == Converted(cast(GetRaw(key)).value)
      ensures GetRaw(key) != "" && cast(GetRaw(key)).None? ==> r.BadLexicalCast?
    {
      GetOr(key, zero, cast)
    }

    /**
     * `getAll(vals, key, includingEmpty)`: as `GetRawAll`, converting each kept value. A failing
     * conversion throws after the earlier values were pushed, so `vals'` then holds exactly the
     * converted values before the first one that failed.
     */
    method GetAll<T>(vals: seq<T>, key: string, includingEmpty: bool, cast: string -> Option<T>)
      returns (vals': seq<T>, r: Converted<nat>)
      ensures r.Converted? ==> AllConvert(Kept(key, includingEmpty), cast)
      ensures r.Converted? ==> vals' == vals + CastAll(Kept(key, includingEmpty), cast) && r.val == |Kept(key, includingEmpty)|
      ensures r.BadLexicalCast? ==>
        && |vals| <= |vals'|
        && FirstFailure(Kept(key, includingEmpty), |vals'| - |vals|, cast)
        && vals' == vals + CastAll(Kept(key, includingEmpty)[..|vals'| - |vals|], cast)
    {
      var range := OptionalMap.Range(contents, key);
      assert Kept(key, includingEmpty) == Selected(range, includingEmpty);
      vals' := vals;
      var count := 0;
      ghost var kept: seq<string> := [];
      var i := 0;
      while i < |range|
        invariant 0 <= i <= |range|
        invariant kept == SelectedUpTo(range, i, includingEmpty)
        invariant count == |kept| && AllConvert(kept, cast)
        invariant vals' == vals + CastAll(kept, cast)
      {
        if includingEmpty || range[i] != "" {
          var converted := cast(range[i]);
          if converted.None? {
            FailureAt(range, i, includingEmpty, cast, kept, vals, vals');
            r := BadLexicalCast;
            return;
          }
          ConvertedStep(range, i, includingEmpty, cast, kept, vals, vals');
          vals' := vals' + [converted.value];
          kept := kept + [range[i]];
          count := count + 1;
        } else {
          SkippedStep(range, i, includingEmpty);
        }
        i := i + 1;
      }
      r := Converted(count);
    }

    /** `getAll<T>(key, includingEmpty)`: collects into a fresh vector, so its length is the count. */
    method GetAllValues<T>(key: string, includingEmpty: bool, cast: string -> Option<T>) returns (r: Converted<seq<T>>)
      ensures r.Converted? <==> AllConvert(Kept(key, includingEmpty), cast)
      ensures r.Converted? ==> r.val == CastAll(Kept(key, includingEmpty), cast) && |r.val| == |Kept(key, includingEmpty)|
    {
      var vals, n := GetAll([], key, includingEmpty, cast);
      match n
      case Converted(_) => r := Converted(vals);
      case BadLexicalCast => r := BadLexicalCast;
    }
  }

  /** The free `swap(lhs, rhs)`: exchanges the contents of two configuration files. */
  method Swap(lhs: ConfigFile, rhs: ConfigFile)
    modifies lhs, rhs
    ensures lhs.contents == old(rhs.contents) && rhs.contents == old(lhs.contents)
  {
    lhs.Swap(rhs);
  }

  /** A file is empty exactly when no key has any value. */
  lemma EmptyIffNoValues(c: ConfigFile)
    ensures c.Empty() <==> forall key :: OptionalMap.Range(c.contents, key) == []
  {
    if !c.Empty() {
      var e := c.contents[0];
      OptionalMap.RangeMembers(c.contents, e.0, e.1);
      assert e.1 in OptionalMap.Range(c.contents, e.0);
    }
  }
}
