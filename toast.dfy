/**
  The toast provider: a list of toasts that `addToast` extends and
  `removeToast` filters by id, and the hook that refuses to run outside the
  provider. A toast's id is the clock reading when it was added, an input here.
 */
module Toast {
  import opened Wrappers

  datatype Variant = Success | Destructive

  /** A toast without its id, as callers pass it. */
  datatype ToastContent = ToastContent(title: string, description: string, variant: Variant)

  datatype ToastItem = ToastItem(id: int, content: ToastContent)

  /** `toasts.filter(toast => toast.id !== id)` */
  function Without(toasts: seq<ToastItem>, id: int): (kept: seq<ToastItem>)
    ensures |kept| <= |toasts|
    ensures forall t :: t in kept <==> t in toasts && t.id != id
  {
    if toasts == [] then []
    else (if toasts[0].id != id then [toasts[0]] else []) + Without(toasts[1..], id)
  }

  /** `sub` is `s` with some elements left out, the rest in their order. */
  predicate IsSubsequence<T(==)>(sub: seq<T>, s: seq<T>)
    decreases |s|
  {
    sub == [] || (s != [] && ((sub[0] == s[0] && IsSubsequence(sub[1..], s[1..])) || IsSubsequence(sub, s[1..])))
  }

  /** The toasts kept are a subsequence of the list: their order is unchanged. */
  lemma {:induction false} WithoutKeepsOrder(toasts: seq<ToastItem>, id: int)
    ensures IsSubsequence(Without(toasts, id), toasts)
  {
    if toasts != [] {
      WithoutKeepsOrder(toasts[1..], id);
      var rest := Without(toasts[1..], id);
      if toasts[0].id != id {
        assert Without(toasts, id) == [toasts[0]] + rest;
        assert ([toasts[0]] + rest)[1..] == rest;
      } else {
        assert Without(toasts, id) == rest;
      }
    }
  }

  /** Removing an id no toast has leaves the list as it was. */
  lemma {:induction false} WithoutAbsent(toasts: seq<ToastItem>, id: int)
    requires forall t :: t in toasts ==> t.id != id
    ensures Without(toasts, id) == toasts
  {
    if toasts != [] {
      WithoutAbsent(toasts[1..], id);
      assert toasts == [toasts[0]] + toasts[1..];
    }
  }

  /** Removing an id the list holds shortens it. */
  lemma {:induction false} WithoutPresent(toasts: seq<ToastItem>, id: int)
    requires exists t :: t in toasts && t.id == id
    ensures |Without(toasts, id)| < |toasts|
  {
    if toasts[0].id != id {
      assert exists t :: t in toasts[1..] && t.id == id;
      WithoutPresent(toasts[1..], id);
    }
  }

  /** Removing distributes over appending: a toast added later is removed on its own terms. */
  lemma {:induction false} WithoutAppend(a: seq<ToastItem>, b: seq<ToastItem>, id: int)
    ensures Without(a + b, id) == Without(a, id) + Without(b, id)
  {
    if a == [] {
      assert a + b == b;
    } else {
      assert (a + b)[1..] == a[1..] + b;
      WithoutAppend(a[1..], b, id);
    }
  }

  /** The provider's state. */
  class ToastProvider {
    var toasts: seq<ToastItem>

    constructor()
      ensures toasts == []
    {
      toasts := [];
    }

    /** `addToast`: one toast at the end, with the clock reading as its id. */
    method AddToast(content: ToastContent, now: int)
      modifies this
      ensures toasts == old(toasts) + [ToastItem(now, content)]
    {
      toasts := toasts + [ToastItem(now, content)];
    }

    /** `removeToast`: every toast with the id goes, the others stay in order. */
    method RemoveToast(id: int)
      modifies this
      ensures toasts == Without(old(toasts), id)
    {
      toasts := Without(toasts, id);
    }
  }

  /** Toasts added at the same instant share an id and are removed together. */
  method SameInstantRemovedTogether(p: ToastProvider, a: ToastContent, b: ToastContent, now: int)
    modifies p
    requires forall t :: t in p.toasts ==> t.id != now
    ensures p.toasts == old(p.toasts)
  {
    ghost var before := p.toasts;
    p.AddToast(a, now);
    p.AddToast(b, now);
    WithoutAppend(before + [ToastItem(now, a)], [ToastItem(now, b)], now);
    WithoutAppend(before, [ToastItem(now, a)], now);
    WithoutAbsent(before, now);
    p.RemoveToast(now);
  }

  /** The context a hook reads: absent outside a provider. */
  datatype HookResult<T> = Context(value: T) | Thrown(message: string)

  /** `useToast`: the provider's context, or the error thrown outside a provider. */
  function UseToast<T>(context: Option<T>): (r: HookResult<T>)
    ensures r.Thrown? <==> context.None?
    ensures r.Thrown? ==> r.message == "useToast must be used within a ToastProvider"
    ensures r.Context? ==> r.value == context.value
  {
    match context
    case None => Thrown("useToast must be used within a ToastProvider")
    case Some(c) => Context(c)
  }
}
