/** The strings that make coin operations idempotent. Every key is a fixed tag followed by
    identifiers separated by colons; the ledger has a unique index on the whole string. */
module IdempotencyKeys {

  /** Row identifiers are UUIDs; the only thing used about them is that they contain no colon. */
  type Uuid = s: string | ':' !in s witness ""

  datatype Provider = STRIPE | APPLE | GOOGLE

  /** One constructor per template string in the services. `client` and `reference` are chosen
      outside the system and may be any string. */
  datatype OpKey =
    | UnlockSpend(postId: Uuid, viewerId: Uuid, correlation: Uuid)
    | UnlockEarn(postId: Uuid, authorId: Uuid, correlation: Uuid)
    | PurchaseCredit(provider: Provider, reference: string)
    | PayoutDebit(userId: Uuid, client: string)
    | PayoutRollback(userId: Uuid, client: string)
    | StripeTransfer(userId: Uuid, client: string)
    | AdminAdjust(userId: Uuid, client: string)

  function Tag(k: OpKey): string {
    match k
    case UnlockSpend(_, _, _) => "unlock:spend:"
    case UnlockEarn(_, _, _) => "unlock:earn:"
    case PurchaseCredit(STRIPE, _) => "purchase:stripe:stripe_evt:"
    case PurchaseCredit(APPLE, _) => "purchase:apple:apple:"
    case PurchaseCredit(GOOGLE, _) => "purchase:google:google:"
    case PayoutDebit(_, _) => "payout:debit:"
    case PayoutRollback(_, _) => "payout:rollback:"
    case StripeTransfer(_, _) => "payout-stripe-transfer:"
    case AdminAdjust(_, _) => "admin-adjust:"
  }

  function Join(first: string, rest: string): string {
    first + ":" + rest
  }

  function Body(k: OpKey): string {
    match k
    case UnlockSpend(p, v, c) => Join(p, Join(v, c))
    case UnlockEarn(p, a, c) => Join(p, Join(a, c))
    case PurchaseCredit(_, r) => r
    case PayoutDebit(u, c) => Join(u, c)
    case PayoutRollback(u, c) => Join(u, c)
    case StripeTransfer(u, c) => Join(u, c)
    case AdminAdjust(u, c) => Join(u, c)
  }

  /** The stored string. */
  function Render(k: OpKey): string {
    Tag(k) + Body(k)
  }

  /** Joining is injective as soon as the first parts have no colon, whatever the rests are. */
  lemma JoinInjective(a: Uuid, x: string, b: Uuid, y: string)
    requires Join(a, x) == Join(b, y)
    ensures a == b && x == y
  {
    var s := Join(a, x);
    assert forall i :: 0 <= i < |a| ==> s[i] == a[i];
    assert forall i :: 0 <= i < |b| ==> s[i] == b[i];
    assert s[|a|] == ':' && s[|b|] == ':';
    assert |a| == |b|;
    assert a == s[..|a|] == b;
    assert x == s[|a| + 1..] == y;
  }

  /** The first and the tenth character of a tag. */
  function Mark(k: OpKey): (char, char) {
    match k
    case UnlockSpend(_, _, _) => ('u', 'e')
    case UnlockEarn(_, _, _) => ('u', 'r')
    case PurchaseCredit(STRIPE, _) => ('p', 's')
    case PurchaseCredit(APPLE, _) => ('p', 'a')
    case PurchaseCredit(GOOGLE, _) => ('p', 'g')
    case PayoutDebit(_, _) => ('p', 'b')
    case PayoutRollback(_, _) => ('p', 'l')
    case StripeTransfer(_, _) => ('p', 'r')
    case AdminAdjust(_, _) => ('a', 'u')
  }

  lemma TagCarriesMark(k: OpKey)
    ensures |Tag(k)| >= 10 && Mark(k) == (Tag(k)[0], Tag(k)[9])
  {
  }

  lemma MarkTellsTag(a: OpKey, b: OpKey)
    requires Mark(a) == Mark(b)
    ensures Tag(a) == Tag(b)
  {
  }

  /** Two different tags differ at a position inside both, so neither is a prefix of the other. */
  lemma TagsClash(a: OpKey, b: OpKey)
    requires Tag(a) != Tag(b)
    ensures Render(a) != Render(b)
  {
    TagCarriesMark(a);
    TagCarriesMark(b);
    if Mark(a) == Mark(b) {
      MarkTellsTag(a, b);
    } else {
      assert Render(a)[0] == Tag(a)[0] && Render(b)[0] == Tag(b)[0];
      assert Render(a)[9] == Tag(a)[9] && Render(b)[9] == Tag(b)[9];
    }
  }

  /** No two operations of the system ever share a key string. */
  lemma RenderInjective(a: OpKey, b: OpKey)
    requires Render(a) == Render(b)
    ensures a == b
  {
    if Tag(a) != Tag(b) {
      TagsClash(a, b);
    } else {
      assert Body(a) == Render(a)[|Tag(a)|..] == Body(b);
      match a {
        case UnlockSpend(p, v, c) =>
          JoinInjective(p, Join(v, c), b.postId, Join(b.viewerId, b.correlation));
          JoinInjective(v, c, b.viewerId, b.correlation);
        case UnlockEarn(p, w, c) =>
          JoinInjective(p, Join(w, c), b.postId, Join(b.authorId, b.correlation));
          JoinInjective(w, c, b.authorId, b.correlation);
        case PurchaseCredit(_, _) =>
        case PayoutDebit(u, c) => JoinInjective(u, c, b.userId, b.client);
        case PayoutRollback(u, c) => JoinInjective(u, c, b.userId, b.client);
        case StripeTransfer(u, c) => JoinInjective(u, c, b.userId, b.client);
        case AdminAdjust(u, c) => JoinInjective(u, c, b.userId, b.client);
      }
    }
  }

  /** The templates. */
  lemma RenderMeans(p: Uuid, v: Uuid, c: Uuid, client: string)
    ensures Render(UnlockSpend(p, v, c)) == "unlock:spend:" + p + ":" + v + ":" + c
    ensures Render(UnlockEarn(p, v, c)) == "unlock:earn:" + p + ":" + v + ":" + c
    ensures Render(PurchaseCredit(STRIPE, client)) == "purchase:stripe:stripe_evt:" + client
    ensures Render(PurchaseCredit(APPLE, client)) == "purchase:apple:apple:" + client
    ensures Render(PurchaseCredit(GOOGLE, client)) == "purchase:google:google:" + client
    ensures Render(PayoutDebit(p, client)) == "payout:debit:" + p + ":" + client
    ensures Render(PayoutRollback(p, client)) == "payout:rollback:" + p + ":" + client
    ensures Render(StripeTransfer(p, client)) == "payout-stripe-transfer:" + p + ":" + client
    ensures Render(AdminAdjust(p, client)) == "admin-adjust:" + p + ":" + client
  {
    JoinsThree("unlock:spend:", p, v, c);
    JoinsThree("unlock:earn:", p, v, c);
    JoinsTwo("payout:debit:", p, client);
    JoinsTwo("payout:rollback:", p, client);
    JoinsTwo("payout-stripe-transfer:", p, client);
    JoinsTwo("admin-adjust:", p, client);
  }

  lemma JoinsTwo(tag: string, a: string, b: string)
    ensures tag + Join(a, b) == tag + a + ":" + b
  {
  }

  lemma JoinsThree(tag: string, a: string, b: string, c: string)
    ensures tag + Join(a, Join(b, c)) == tag + a + ":" + b + ":" + c
  {
  }

  /** Where colon-free identifiers stop mattering: for two different strings u and v, some pair of
      client keys makes the two joined strings collide exactly when one of u and v, followed by a
      colon, is a prefix of the other followed by a colon. */
  lemma JoinCollides(u: string, v: string)
    requires u != v
    ensures (exists x, y :: Join(u, x) == Join(v, y)) <==> (u + ":" <= v + ":" || v + ":" <= u + ":")
  {
    if x, y :| Join(u, x) == Join(v, y) {
      var s := Join(u, x);
      assert u + ":" == s[..|u| + 1];
      assert v + ":" == s[..|v| + 1];
      if |u| <= |v| {
        assert s[..|u| + 1] <= s[..|v| + 1];
      } else {
        assert s[..|v| + 1] <= s[..|u| + 1];
      }
    }
    if u + ":" <= v + ":" {
      var x := (v + ":")[|u| + 1..];
      assert Join(u, x) == Join(v, "");
    }
    if v + ":" <= u + ":" {
      var y := (u + ":")[|v| + 1..];
      assert Join(u, "") == Join(v, y);
    }
  }
}
