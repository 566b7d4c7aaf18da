/** `UniversalNamespaceAroundFunction`: the mapping that resolves a name by
    looking, in order, at its own table of assigned names, at the local
    variables of a chain of frames from the innermost outward, at the globals
    of a function and at the builtins, and that stores assignments in its own
    table only.

    A frame chain (`frame`, `frame.f_back`, ...) is the sequence of the frames'
    `f_locals`, innermost first; no frame at all is the empty sequence. The
    `builtins` module is the map of its attributes. */
module UniversalNamespace {
  import opened Results

  /** `KeyError(key)`. */
  datatype Error = KeyError(key: string)

  /** The value the `while frame:` loop returns: the locals of the first
      frame that has `key`, or nothing when none has. */
  function FramesLookup<V>(frames: seq<map<string, V>>, key: string): Option<V> {
    if frames == [] then None
    else if key in frames[0] then Some(frames[0][key])
    else FramesLookup(frames[1..], key)
  }

  /** The whole lookup of `__getitem__`. */
  function Lookup<V>(results: map<string, V>, frames: seq<map<string, V>>, globals: map<string, V>,
                     builtins: map<string, V>, key: string): (r: Result<V, Error>)
    ensures r.Err? ==> r.error == KeyError(key)
  {
    if key in results then Ok(results[key])
    else match FramesLookup(frames, key)
      case Some(v) => Ok(v)
      case None =>
        if key in globals then Ok(globals[key])
        else if key in builtins then Ok(builtins[key])
        else Err(KeyError(key))
  }

  class UniversalNamespaceAroundFunction<V> {
    /** `function.__globals__`. */
    const globals: map<string, V>
    /** The locals of `frame` and of the frames behind it, innermost first. */
    const frames: seq<map<string, V>>
    /** The attributes of the `builtins` module. */
    const builtins: map<string, V>
    /** `self.results`: the names assigned through this namespace. */
    var results: map<string, V>

    /** `UniversalNamespaceAroundFunction(function, frame)`: starts with no
        assigned names. */
    constructor (globals: map<string, V>, frames: seq<map<string, V>>, builtins: map<string, V>)
      ensures this.globals == globals && this.frames == frames && this.builtins == builtins
      ensures results == map[]
    {
      this.globals := globals;
      this.frames := frames;
      this.builtins := builtins;
      results := map[];
    }

    /** `__getitem__`: reads the layers in order and changes nothing. */
    method GetItem(key: string) returns (r: Result<V, Error>)
      ensures r == Lookup(results, frames, globals, builtins, key)
    {
      if key in results {
        return Ok(results[key]);
      }
      var i := 0;
      while i < |frames|
        invariant 0 <= i <= |frames|
        invariant FramesLookup(frames, key) == FramesLookup(frames[i..], key)
      {
        var locals := frames[i];
        if key in locals {
          assert frames[i..][0] == locals;
          return Ok(locals[key]);
        }
        assert frames[i..][1..] == frames[i + 1..];
        i := i + 1;
      }
      assert frames[i..] == [];
      if key in globals {
        return Ok(globals[key]);
      }
      if key in builtins {
        return Ok(builtins[key]);
      }
      return Err(KeyError(key));
    }

    /** `__setitem__`: records the value in the table of assigned names; the
        frames, the globals and the builtins are never written. */
    method SetItem(key: string, value: V)
      modifies this
      ensures results == old(results)[key := value]
      ensures Lookup(results, frames, globals, builtins, key) == Ok(value)
      ensures forall other | other != key ::
                Lookup(results, frames, globals, builtins, other) == Lookup(old(results), frames, globals, builtins, other)
    {
      results := results[key := value];
    }
  }

  // ---------------------------------------------------------------------------
  // Precedence
  // ---------------------------------------------------------------------------

  /** Frames are searched innermost first: the value found is that of the
      first frame whose locals hold `key`. */
  lemma {:induction false} FramesInnermostFirst<V>(frames: seq<map<string, V>>, key: string, i: nat)
    requires i < |frames| && key in frames[i]
    requires forall j | 0 <= j < i :: key !in frames[j]
    ensures FramesLookup(frames, key) == Some(frames[i][key])
  {
    if i > 0 {
      assert key !in frames[0];
      assert forall j | 0 <= j < i - 1 :: frames[1..][j] == frames[j + 1];
      FramesInnermostFirst(frames[1..], key, i - 1);
    }
  }

  /** The frame search finds nothing exactly when no frame holds `key`. */
  lemma {:induction false} FramesLookupNoneIff<V>(frames: seq<map<string, V>>, key: string)
    ensures FramesLookup(frames, key).None? <==> forall j | 0 <= j < |frames| :: key !in frames[j]
  {
    if frames != [] {
      assert forall j | 0 <= j < |frames| - 1 :: frames[1..][j] == frames[j + 1];
      FramesLookupNoneIff(frames[1..], key);
      assert forall j | 0 < j < |frames| :: frames[j] == frames[1..][j - 1];
    }
  }

  /** A frame local shadows every global and builtin of the same name. */
  lemma FrameShadowsGlobalsAndBuiltins<V>(results: map<string, V>, frames: seq<map<string, V>>,
                                          globals: map<string, V>, builtins: map<string, V>, key: string, i: nat)
    requires key !in results
    requires i < |frames| && key in frames[i]
    requires forall j | 0 <= j < i :: key !in frames[j]
    ensures Lookup(results, frames, globals, builtins, key) == Ok(frames[i][key])
  {
    FramesInnermostFirst(frames, key, i);
  }

  /** A global shadows a builtin of the same name. */
  lemma GlobalShadowsBuiltin<V>(results: map<string, V>, frames: seq<map<string, V>>,
                                globals: map<string, V>, builtins: map<string, V>, key: string)
    requires key !in results
    requires forall j | 0 <= j < |frames| :: key !in frames[j]
    requires key in globals
    ensures Lookup(results, frames, globals, builtins, key) == Ok(globals[key])
  {
    FramesLookupNoneIff(frames, key);
  }

  /** A builtin is found when no other layer has the name. */
  lemma BuiltinFallback<V>(results: map<string, V>, frames: seq<map<string, V>>,
                           globals: map<string, V>, builtins: map<string, V>, key: string)
    requires key !in results
    requires forall j | 0 <= j < |frames| :: key !in frames[j]
    requires key !in globals && key in builtins
    ensures Lookup(results, frames, globals, builtins, key) == Ok(builtins[key])
  {
    FramesLookupNoneIff(frames, key);
  }

  /** `KeyError(key)` is raised exactly when no layer has the name. */
  lemma KeyErrorIff<V>(results: map<string, V>, frames: seq<map<string, V>>,
                       globals: map<string, V>, builtins: map<string, V>, key: string)
    ensures Lookup(results, frames, globals, builtins, key) == Err(KeyError(key))
        <==> (&& key !in results
              && (forall j | 0 <= j < |frames| :: key !in frames[j])
              && key !in globals
              && key !in builtins)
    ensures Lookup(results, frames, globals, builtins, key).Err? ==> Lookup(results, frames, globals, builtins, key) == Err(KeyError(key))
  {
    FramesLookupNoneIff(frames, key);
  }

  // ---------------------------------------------------------------------------
  // Assignment
  // ---------------------------------------------------------------------------

  /** After `ns[key] = value`, `ns[key]` is `value`, whatever the frames, the
      globals and the builtins hold. */
  lemma LookupAfterSet<V>(results: map<string, V>, frames: seq<map<string, V>>,
                          globals: map<string, V>, builtins: map<string, V>, key: string, value: V)
    ensures Lookup(results[key := value], frames, globals, builtins, key) == Ok(value)
  {
  }

  /** An assignment leaves the lookup of every other name as it was. */
  lemma LookupOtherKeyAfterSet<V>(results: map<string, V>, frames: seq<map<string, V>>,
                                  globals: map<string, V>, builtins: map<string, V>, key: string, value: V, other: string)
    requires other != key
    ensures Lookup(results[key := value], frames, globals, builtins, other)
         == Lookup(results, frames, globals, builtins, other)
  {
  }

  /** A name in the table of assigned names is answered from the table,
      ahead of every other layer. */
  lemma ResultsFirst<V>(results: map<string, V>, frames: seq<map<string, V>>,
                        globals: map<string, V>, builtins: map<string, V>, key: string)
    requires key in results
    ensures Lookup(results, frames, globals, builtins, key) == Ok(results[key])
  {
  }

  /** A fresh namespace resolves a name exactly as its frames, globals and
      builtins do, and raises `KeyError` for a name none of them has. */
  lemma FreshNamespace<V>(frames: seq<map<string, V>>, globals: map<string, V>, builtins: map<string, V>, key: string)
    ensures Lookup(map[], frames, globals, builtins, key).Ok? <==>
            ((exists j | 0 <= j < |frames| :: key in frames[j]) || key in globals || key in builtins)
  {
    FramesLookupNoneIff(frames, key);
  }
}
