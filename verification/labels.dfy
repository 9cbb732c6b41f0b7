/**
  Log labels carried by a context (main.go:95-112). A context holds at most one
  label string under a private key; `WithLabel` nests a new label under the one
  already there, separated by `>`, and `Label` reads it back with `"main"`
  standing in for a missing or empty label. `Er` is the error wrapping that
  prefixes an error with the label of the context it is reported from.
 */
module Labels {
  import opened Errors
  import Strings

  const Separator: char := '>'
  const DefaultLabel: string := "main"

  /** The part of a Go context this model needs: the value stored under the
      label key, if any. Only `WithLabel` stores there, so it is a string. */
  datatype Context = Context(stored: Option<string>)

  /** `context.Background()`: no label stored. */
  const Background: Context := Context(None)

  /** `withLabel(ctx, l)` (main.go:99-104). */
  function WithLabel(ctx: Context, l: string): (r: Context)
  {
    if ctx.stored.Some? then Context(Some(ctx.stored.value + [Separator] + l))
    else Context(Some(l))
  }

  /** Whatever was stored before, the new label is stored; a label already
      present keeps all its `>`-separated parts, followed by those of the new
      label. */
  lemma WithLabelKeepsParent(ctx: Context, l: string)
    ensures WithLabel(ctx, l).stored.Some?
    ensures ctx.stored.None? ==> WithLabel(ctx, l).stored.value == l
    ensures ctx.stored.Some? ==>
              Strings.Split(WithLabel(ctx, l).stored.value, Separator) ==
              Strings.Split(ctx.stored.value, Separator) + Strings.Split(l, Separator)
  {
    if ctx.stored.Some? {
      SplitAppend(ctx.stored.value, l);
    }
  }

  /** Two different non-empty labels added under the same context give
      different labels, so sibling goroutines stay distinguishable in errors. */
  lemma SiblingLabelsDiffer(ctx: Context, a: string, b: string)
    requires a != b && a != "" && b != ""
    ensures Label(WithLabel(ctx, a)) != Label(WithLabel(ctx, b))
  {
    if ctx.stored.Some? {
      var p := ctx.stored.value;
      assert (p + [Separator] + a)[|p| + 1..] == a;
      assert (p + [Separator] + b)[|p| + 1..] == b;
    }
  }

  /** `label(ctx)` (main.go:106-112): never empty; it is the stored label
      unless that is absent or empty. */
  function Label(ctx: Context): (r: string)
    ensures |r| > 0
    ensures r == DefaultLabel || ctx.stored == Some(r)
    ensures (ctx.stored == None || ctx.stored == Some("")) <==> ctx.stored != Some(r)
  {
    if ctx.stored.None? || ctx.stored.value == "" then DefaultLabel
    else ctx.stored.value
  }

  /** The label-bearing part of `er(ctx, e)` (main.go:86-89). */
  function Er(ctx: Context, e: Error): (r: Error)
    ensures Root(r) == Root(e)
    ensures forall target :: Is(e, target) ==> Is(r, target)
  {
    Wrapped(Label(ctx), e)
  }

  /** The context reached by applying `WithLabel` once per label, outermost
      label first, as nested calls down a call chain do. */
  function Nest(ctx: Context, ls: seq<string>): Context
    decreases |ls|
  {
    if |ls| == 0 then ctx else Nest(WithLabel(ctx, ls[0]), ls[1..])
  }

  lemma SplitAppend(p: string, l: string)
    ensures Strings.Split(p + [Separator] + l, Separator) ==
              Strings.Split(p, Separator) + Strings.Split(l, Separator)
  {
    var s := p + [Separator] + l;
    Strings.JoinSplit(p, Separator);
    Strings.JoinSplit(l, Separator);
    var ps := Strings.Split(p, Separator);
    var ls := Strings.Split(l, Separator);
    JoinAppend(ps, ls);
    Strings.SplitJoin(ps + ls, Separator);
  }

  lemma {:induction false} JoinAppend(xs: seq<string>, ys: seq<string>)
    requires |xs| >= 1 && |ys| >= 1
    ensures Strings.Join(xs + ys, Separator) ==
              Strings.Join(xs, Separator) + [Separator] + Strings.Join(ys, Separator)
    decreases |xs|
  {
    if |xs| > 1 {
      assert (xs + ys)[1..] == xs[1..] + ys;
      JoinAppend(xs[1..], ys);
    } else {
      assert (xs + ys)[1..] == ys;
    }
  }

  /** Nesting under an existing label appends the new labels after it. */
  lemma {:induction false} NestUnder(p: string, ls: seq<string>)
    requires |ls| >= 1
    ensures Nest(Context(Some(p)), ls).stored == Some(p + [Separator] + Strings.Join(ls, Separator))
    decreases |ls|
  {
    assert Nest(Context(Some(p)), ls) == Nest(Context(Some(p + [Separator] + ls[0])), ls[1..]);
    if |ls| > 1 {
      NestUnder(p + [Separator] + ls[0], ls[1..]);
      assert p + [Separator] + ls[0] + [Separator] + Strings.Join(ls[1..], Separator)
          == p + [Separator] + (ls[0] + [Separator] + Strings.Join(ls[1..], Separator));
    }
  }

  /** Labels applied one after another from a fresh context read back as the
      labels joined with `>`, or as `"main"` when that join is empty. */
  lemma NestedLabel(ls: seq<string>)
    requires |ls| >= 1
    ensures Nest(Background, ls).stored == Some(Strings.Join(ls, Separator))
    ensures Label(Nest(Background, ls)) ==
              (if Strings.Join(ls, Separator) == "" then DefaultLabel else Strings.Join(ls, Separator))
  {
    if |ls| > 1 {
      NestUnder(ls[0], ls[1..]);
    }
  }

  /** A label chain of `>`-free names can be taken apart again: splitting the
      label at `>` gives back every name in the order it was applied. */
  lemma LabelChainRoundTrip(ls: seq<string>)
    requires |ls| >= 1
    requires forall k :: 0 <= k < |ls| ==> Separator !in ls[k]
    requires ls != [""]
    ensures Strings.Split(Label(Nest(Background, ls)), Separator) == ls
  {
    NestedLabel(ls);
    Strings.SplitJoin(ls, Separator);
    if |ls| == 1 {
      assert ls[0] != "";
    } else {
      assert |Strings.Join(ls, Separator)| > 0;
    }
  }
}
