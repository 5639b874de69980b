/** Properties of the composer as a whole: a document is rendered node by
    node on one composer, an argument outside a template aborts the
    composition, and a module function sees its positional parameters
    renumbered from 1 while named ones pass through. */
module RenderFacts {
  import opened Outcomes
  import opened Strings
  import opened Params
  import opened Nodes
  import opened Modules
  import opened Rendering

  /** `visit_Wikicode` on a concatenation: the nodes of `a + b` are rendered
      by rendering `a` and then, on the state it leaves (its open tags and
      queued lists included), `b`; an error in `a` ends the rendering. */
  lemma {:induction false} RenderSeqAppend(cfg: Config, fuel: nat, ctx: Option<Params>, a: seq<Node>, b: seq<Node>,
                                           st: State)
    ensures RenderSeq(cfg, fuel, ctx, a + b, st)
            == match RenderSeq(cfg, fuel, ctx, a, st)
               case Ok(mid) => RenderSeq(cfg, fuel, ctx, b, mid)
               case Err(e) => Err(e)
    decreases |a|
  {
    if a == [] {
      assert a + b == b;
    } else {
      assert (a + b)[0] == a[0] && (a + b)[1..] == a[1..] + b;
      var first := Render(cfg, fuel, ctx, a[0], st);
      if first.Ok? {
        RenderSeqAppend(cfg, fuel, ctx, a[1..], b, first.value);
      }
    }
  }

  /** An argument outside every template (`self._context` is `None`) raises
      `TypeError`, unless its own name already fails to render. */
  lemma ArgumentNeedsTemplate(cfg: Config, fuel: nat, n: Node, st: State)
    requires n.Argument?
    ensures Render(cfg, fuel, None, n, st).Err?
    ensures Fresh(cfg, fuel, None, n.name).Ok? ==> Render(cfg, fuel, None, n, st) == Err(ArgumentOutsideTemplate)
  {
  }

  /** A top-level document that holds an argument among its nodes cannot be
      composed: the composition fails at that argument or before it. */
  lemma {:induction false} TopLevelArgumentFails(cfg: Config, fuel: nat, ns: seq<Node>, st: State, i: nat)
    requires i < |ns| && ns[i].Argument?
    ensures RenderSeq(cfg, fuel, None, ns, st).Err?
    decreases i
  {
    if i == 0 {
      ArgumentNeedsTemplate(cfg, fuel, ns[0], st);
    } else {
      var first := Render(cfg, fuel, None, ns[0], st);
      if first.Ok? {
        TopLevelArgumentFails(cfg, fuel, ns[1..], first.value, i - 1);
      }
    }
  }

  /** `compose` of a document with a top-level argument raises. */
  lemma ComposeTopLevelArgument(cfg: Config, fuel: nat, ns: seq<Node>, i: nat)
    requires i < |ns| && ns[i].Argument?
    ensures Compose(cfg, fuel, None, Wikicode(ns)).Err?
  {
    TopLevelArgumentFails(cfg, fuel, ns, Initial, i);
  }

  /** Distinct integers are written differently. */
  lemma IntDecimalInjective(a: int, b: int)
    requires IntToDecimal(a) == IntToDecimal(b)
    ensures a == b
  {
    IntDecimalRoundTrip(a);
    IntDecimalRoundTrip(b);
  }

  /** A key is renumbered to `str(n)` exactly when it parses as `n + 1`. */
  lemma RenumberKeyIff(key: string, n: int)
    ensures RenumberKey(key) == IntToDecimal(n) <==> ParseInt(key) == Some(n + 1)
  {
    var p := ParseInt(key);
    if p.Some? {
      if IntToDecimal(p.value - 1) == IntToDecimal(n) {
        IntDecimalInjective(p.value - 1, n);
      }
    } else {
      IntDecimalRoundTrip(n);
    }
  }

  /** A key that is not an integer is renumbered to itself and is the
      renumbering of no other key. */
  lemma RenumberKeyNamed(key: string, k: string)
    requires ParseInt(k).None?
    ensures RenumberKey(key) == k <==> key == k
  {
    match ParseInt(key)
    case Some(m) => IntDecimalRoundTrip(m - 1);
    case None =>
  }

  lemma RenumberKeysInit(pairs: seq<(string, string)>)
    requires pairs != []
    ensures RenumberKeys(pairs)[..|pairs| - 1] == RenumberKeys(pairs[..|pairs| - 1])
    ensures RenumberKeys(pairs)[|pairs| - 1] == (RenumberKey(pairs[|pairs| - 1].0), pairs[|pairs| - 1].1)
  {
    var init := RenumberKeys(pairs[..|pairs| - 1]);
    assert (init + [(RenumberKey(pairs[|pairs| - 1].0), pairs[|pairs| - 1].1)])[..|init|] == init;
  }

  /** After renumbering, the value under `str(n)` is the last value under
      `str(n + 1)`, when that is how every key meaning `n + 1` is spelt. */
  lemma {:induction false} LastValueRenumbered(pairs: seq<(string, string)>, n: int)
    requires forall j :: 0 <= j < |pairs| && ParseInt(pairs[j].0) == Some(n + 1) ==> pairs[j].0 == IntToDecimal(n + 1)
    ensures LastValue(RenumberKeys(pairs), IntToDecimal(n)) == LastValue(pairs, IntToDecimal(n + 1))
    decreases |pairs|
  {
    if pairs != [] {
      var last := pairs[|pairs| - 1];
      RenumberKeysInit(pairs);
      RenumberKeyIff(last.0, n);
      IntDecimalRoundTrip(n + 1);
      LastValueRenumbered(pairs[..|pairs| - 1], n);
    }
  }

  /** A key that is not an integer keeps its last value. */
  lemma {:induction false} LastValueNamed(pairs: seq<(string, string)>, k: string)
    requires ParseInt(k).None?
    ensures LastValue(RenumberKeys(pairs), k) == LastValue(pairs, k)
    decreases |pairs|
  {
    if pairs != [] {
      RenumberKeysInit(pairs);
      RenumberKeyNamed(pairs[|pairs| - 1].0, k);
      LastValueNamed(pairs[..|pairs| - 1], k);
    }
  }

  /** The parameters a module function receives: what the template call
      passed as parameter `n + 1` arrives as parameter `n`. */
  lemma RenumberPositional(context: Params, n: int)
    requires DistinctKeys(context)
    requires forall j :: 0 <= j < |context| && ParseInt(context[j].0) == Some(n + 1) ==> context[j].0 == IntToDecimal(n + 1)
    ensures Get(Renumber(context), IntToDecimal(n)) == Get(context, IntToDecimal(n + 1))
  {
    FromPairsGet(RenumberKeys(context), IntToDecimal(n));
    LastValueRenumbered(context, n);
    FromPairsDistinctKeys(context);
    FromPairsGet(context, IntToDecimal(n + 1));
  }

  /** Named parameters reach a module function unchanged. */
  lemma RenumberNamed(context: Params, k: string)
    requires DistinctKeys(context) && ParseInt(k).None?
    ensures Get(Renumber(context), k) == Get(context, k)
  {
    FromPairsGet(RenumberKeys(context), k);
    LastValueNamed(context, k);
    FromPairsDistinctKeys(context);
    FromPairsGet(context, k);
  }
}
