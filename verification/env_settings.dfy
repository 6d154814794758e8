/**
 * The environment settings mapping: a nested, ordered mapping from setting
 * names to environment-variable names.
 */
module EnvSettings {

  /** A PHP array key after the runtime's key coercion: an integer or a string. */
  datatype Key = IntKey(i: int) | StrKey(s: string)

  /**
   * A value specification: a leaf naming an environment variable, or a
   * composite holding an ordered list of keyed sub-specifications.
   */
  datatype Spec = Leaf(envVar: string) | Composite(entries: seq<(Key, Spec)>)

  /** A composite with exactly one entry: the shape the collapsing loop unwraps. */
  predicate IsSingleton(v: Spec)
  {
    v.Composite? && |v.entries| == 1
  }

  /** Wraps `v` in one single-entry composite per key of `path`, outermost first. */
  function Nest(path: seq<Key>, v: Spec): Spec
  {
    if path == [] then v else Composite([(path[0], Nest(path[1..], v))])
  }

  /**
   * Splits a specification into its run of single-entry composites and
   * what is left below them: the keys the collapsing loop turns into
   * subscripts, and the value it stops at.
   */
  function Spine(v: Spec): (r: (seq<Key>, Spec))
    ensures Nest(r.0, r.1) == v
    ensures !IsSingleton(r.1)
    ensures v.Leaf? ==> r == ([], v)
  {
    if IsSingleton(v) then
      var (p, rest) := Spine(v.entries[0].1);
      ([v.entries[0].0] + p, rest)
    else
      ([], v)
  }

  /**
   * The decomposition is unique: any path and stopping value that re-nest
   * to a specification are exactly its spine.
   */
  lemma {:induction false} SpineUnique(path: seq<Key>, rest: Spec)
    requires !IsSingleton(rest)
    ensures Spine(Nest(path, rest)) == (path, rest)
  {
    if path != [] {
      SpineUnique(path[1..], rest);
      assert [path[0]] + path[1..] == path;
    }
  }

  /** Nesting under one more inner key is nesting the inner singleton. */
  lemma {:induction false} NestSnoc(path: seq<Key>, k: Key, v: Spec)
    ensures Nest(path + [k], v) == Nest(path, Composite([(k, v)]))
  {
    if path != [] {
      assert (path + [k])[1..] == path[1..] + [k];
      NestSnoc(path[1..], k, v);
    }
  }
}
