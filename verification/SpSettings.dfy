/** Where the ids of the two smart processes live in the settings, and why a stale settings form can
    never lose them (app/config/distributionSp.ts). */
module SpSettings {
  import opened Outcome
  import opened Text
  import opened DistributionSp

  type Config = map<string, string>

  const PAYMENT_KEY := "payment-sp"
  const PAYMENT_ID_KEY := "payment-sp-id"
  const DISTRIBUTION_KEY := "distribution-sp"
  const DISTRIBUTION_ID_KEY := "distribution-sp-id"
  const PROVISIONED_KEYS := [PAYMENT_KEY, PAYMENT_ID_KEY, DISTRIBUTION_KEY, DISTRIBUTION_ID_KEY]

  function WithSpProvision(c: Config, payment: SpRef, distribution: SpRef): Config
  {
    c[PAYMENT_KEY := Decimal(payment.entityTypeId)][PAYMENT_ID_KEY := Decimal(payment.id)]
     [DISTRIBUTION_KEY := Decimal(distribution.entityTypeId)][DISTRIBUTION_ID_KEY := Decimal(distribution.id)]
  }

  /** A stored value counts when it is there and not blank. */
  function Stored(c: Config, key: string): string
  {
    if key in c then c[key] else ""
  }

  /** What the saved form becomes: managed keys as stored, all others as sent. */
  ghost function Kept(incoming: Config, stored: Config): Config
  {
    map k | k in incoming.Keys + stored.Keys
            && (if k in PROVISIONED_KEYS then Stored(stored, k) != "" else k in incoming)
          :: if k in PROVISIONED_KEYS then stored[k] else incoming[k]
  }

  method KeepStoredSpIds(incoming: Config, stored: Config) returns (out: Config)
    ensures out == Kept(incoming, stored)
  {
    hide PROVISIONED_KEYS;
    out := map[];
    var left := incoming.Keys;
    while left != {}
      invariant left <= incoming.Keys
      invariant out.Keys == set k | k in incoming.Keys - left && k !in PROVISIONED_KEYS
      invariant forall k :: k in out ==> out[k] == incoming[k]
    {
      var key :| key in left;
      if key !in PROVISIONED_KEYS {
        out := out[key := incoming[key]];
      }
      left := left - {key};
    }
    hide Stored, Partly;
    NoneKept(incoming, stored, out);
    for i := 0 to |PROVISIONED_KEYS|
      invariant Partly(incoming, stored, out, i)
    {
      var key := PROVISIONED_KEYS[i];
      var value := Stored(stored, key);
      OneKept(incoming, stored, out, i);
      if value != "" {
        out := out[key := value];
      }
    }
    AllKept(incoming, stored, out);
  }

  /** All other keys as sent, and of the managed ones the first `i` as stored. */
  ghost predicate Partly(incoming: Config, stored: Config, out: Config, i: nat)
    requires i <= |PROVISIONED_KEYS|
  {
    && (forall k :: k in out <==> if k in PROVISIONED_KEYS then k in PROVISIONED_KEYS[..i] && Stored(stored, k) != "" else k in incoming)
    && forall k :: k in out ==> out[k] == if k in PROVISIONED_KEYS then Stored(stored, k) else incoming[k]
  }

  lemma NoneKept(incoming: Config, stored: Config, out: Config)
    requires out.Keys == (set k | k in incoming.Keys && k !in PROVISIONED_KEYS) && forall k :: k in out ==> out[k] == incoming[k]
    ensures Partly(incoming, stored, out, 0)
  {
    hide PROVISIONED_KEYS, Stored;
    forall k ensures k in out <==> k in incoming && k !in PROVISIONED_KEYS {
      assert k in out <==> k in out.Keys;
    }
  }

  lemma OneKept(incoming: Config, stored: Config, out: Config, i: nat)
    requires i < |PROVISIONED_KEYS| && Partly(incoming, stored, out, i)
    ensures var key := PROVISIONED_KEYS[i];
            Partly(incoming, stored, if Stored(stored, key) != "" then out[key := Stored(stored, key)] else out, i + 1)
  {
    hide PROVISIONED_KEYS, Stored;
    var key := PROVISIONED_KEYS[i];
    assert PROVISIONED_KEYS[..i + 1] == PROVISIONED_KEYS[..i] + [key];
  }

  lemma AllKept(incoming: Config, stored: Config, out: Config)
    requires Partly(incoming, stored, out, |PROVISIONED_KEYS|)
    ensures out == Kept(incoming, stored)
  {
    hide PROVISIONED_KEYS;
    assert PROVISIONED_KEYS[..|PROVISIONED_KEYS|] == PROVISIONED_KEYS;
  }

  /** A positive whole number, or nothing; `number` is ECMAScript's `Number`, where it is a whole one. */
  function CoercePositiveInt(number: string -> Option<int>, raw: string): Option<nat>
  {
    if raw == "" then None
    else
      match number(Trim(raw))
      case None => None
      case Some(n) => if n > 0 then Some(n) else None
  }

  function Ref(number: string -> Option<int>, c: Config, etidKey: string, idKey: string): Option<SpRef>
  {
    var etid, id := CoercePositiveInt(number, Stored(c, etidKey)), CoercePositiveInt(number, Stored(c, idKey));
    if etid.Some? && id.Some? then Some(SpRef(etid.value, id.value)) else None
  }

  function PaymentSpRef(number: string -> Option<int>, c: Config): Option<SpRef>
  {
    Ref(number, c, PAYMENT_KEY, PAYMENT_ID_KEY)
  }

  function DistributionSpRef(number: string -> Option<int>, c: Config): Option<SpRef>
  {
    Ref(number, c, DISTRIBUTION_KEY, DISTRIBUTION_ID_KEY)
  }

  // ---- Runs

  /** Everything that writes the settings: provisioning, and a form saved with whatever it held. */
  datatype Event = Provision(payment: SpRef, distribution: SpRef) | SaveForm(incoming: Config)

  ghost function Apply(c: Config, e: Event): Config
  {
    match e
    case Provision(payment, distribution) => WithSpProvision(c, payment, distribution)
    case SaveForm(incoming) => Kept(incoming, c)
  }

  ghost function Run(c: Config, events: seq<Event>): Config
  {
    if events == [] then c else Apply(Run(c, events[..|events| - 1]), events[|events| - 1])
  }

  /** The same run without the form. */
  ghost function Provisions(events: seq<Event>): seq<Event>
  {
    if events == [] then []
    else
      var last := events[|events| - 1];
      Provisions(events[..|events| - 1]) + if last.Provision? then [last] else []
  }

  lemma KeysDiffer()
    ensures PAYMENT_KEY != PAYMENT_ID_KEY && PAYMENT_KEY != DISTRIBUTION_KEY && PAYMENT_KEY != DISTRIBUTION_ID_KEY
    ensures PAYMENT_ID_KEY != DISTRIBUTION_KEY && PAYMENT_ID_KEY != DISTRIBUTION_ID_KEY
    ensures DISTRIBUTION_KEY != DISTRIBUTION_ID_KEY
  {
    assert PAYMENT_KEY[0] == 'p' && PAYMENT_ID_KEY[0] == 'p' && DISTRIBUTION_KEY[0] == 'd' && DISTRIBUTION_ID_KEY[0] == 'd';
    assert |PAYMENT_KEY| != |PAYMENT_ID_KEY| && |DISTRIBUTION_KEY| != |DISTRIBUTION_ID_KEY|;
  }

  /** What one step leaves under a managed key. */
  lemma ManagedAfter(c: Config, e: Event, key: string)
    requires key in PROVISIONED_KEYS
    ensures e.SaveForm? ==> Stored(Apply(c, e), key) == Stored(c, key)
    ensures e.Provision? ==>
              Stored(Apply(c, e), key) == Decimal(if key == PAYMENT_KEY then e.payment.entityTypeId
                                                  else if key == PAYMENT_ID_KEY then e.payment.id
                                                  else if key == DISTRIBUTION_KEY then e.distribution.entityTypeId
                                                  else e.distribution.id)
  {
    KeysDiffer();
  }

  /** Over any run, the ids are what they would be had no form ever been saved. */
  lemma {:induction false} FormsNeverTouchIds(c: Config, events: seq<Event>, key: string)
    requires key in PROVISIONED_KEYS
    ensures Stored(Run(c, events), key) == Stored(Run(c, Provisions(events)), key)
  {
    hide PROVISIONED_KEYS, Apply;
    if events != [] {
      var front, last := events[..|events| - 1], events[|events| - 1];
      FormsNeverTouchIds(c, front, key);
      ManagedAfter(Run(c, front), last, key);
      var kept := Provisions(front);
      if last.Provision? {
        assert (kept + [last])[..|kept|] == kept;
        ManagedAfter(Run(c, kept), last, key);
        assert Run(c, kept + [last]) == Apply(Run(c, kept), last);
      } else {
        assert Provisions(events) == kept;
      }
    }
  }

  /** Once provisioned, the two processes are found, whatever forms are saved afterwards; every other
      key holds what the last form sent. */
  lemma {:induction false} RefsSurviveForms(number: string -> Option<int>, c: Config, payment: SpRef, distribution: SpRef,
                                            forms: seq<Event>)
    requires forall n :: n >= 1 ==> number(Decimal(n)) == Some(n)
    requires payment.entityTypeId >= 1 && payment.id >= 1 && distribution.entityTypeId >= 1 && distribution.id >= 1
    requires forall k :: 0 <= k < |forms| ==> forms[k].SaveForm?
    ensures var after := Run(Apply(c, Provision(payment, distribution)), forms);
            && PaymentSpRef(number, after) == Some(payment) && DistributionSpRef(number, after) == Some(distribution)
            && (forms != [] ==> forall key :: key !in PROVISIONED_KEYS ==>
                  Stored(after, key) == Stored(forms[|forms| - 1].incoming, key))
  {
    hide PROVISIONED_KEYS, Apply, Provisions;
    var first := Apply(c, Provision(payment, distribution));
    ManagedKeys();
    NoProvisions(forms);
    forall key | key in PROVISIONED_KEYS
      ensures Stored(Run(first, forms), key) == Stored(first, key)
    {
      FormsNeverTouchIds(first, forms, key);
    }
    forall key | key in PROVISIONED_KEYS
      ensures Stored(first, key) == Decimal(if key == PAYMENT_KEY then payment.entityTypeId
                                            else if key == PAYMENT_ID_KEY then payment.id
                                            else if key == DISTRIBUTION_KEY then distribution.entityTypeId
                                            else distribution.id)
    {
      ManagedAfter(c, Provision(payment, distribution), key);
    }
    KeysDiffer();
    DecimalTrimmed(payment.entityTypeId);
    DecimalTrimmed(payment.id);
    DecimalTrimmed(distribution.entityTypeId);
    DecimalTrimmed(distribution.id);
    if forms != [] {
      OthersAsSent(Run(first, forms[..|forms| - 1]), forms[|forms| - 1]);
    }
  }

  lemma OthersAsSent(c: Config, e: Event)
    requires e.SaveForm?
    ensures forall key :: key !in PROVISIONED_KEYS ==> Stored(Apply(c, e), key) == Stored(e.incoming, key)
  {
    hide PROVISIONED_KEYS;
  }

  lemma ManagedKeys()
    ensures PAYMENT_KEY in PROVISIONED_KEYS && PAYMENT_ID_KEY in PROVISIONED_KEYS
    ensures DISTRIBUTION_KEY in PROVISIONED_KEYS && DISTRIBUTION_ID_KEY in PROVISIONED_KEYS
  {
    assert PROVISIONED_KEYS[0] == PAYMENT_KEY && PROVISIONED_KEYS[1] == PAYMENT_ID_KEY;
    assert PROVISIONED_KEYS[2] == DISTRIBUTION_KEY && PROVISIONED_KEYS[3] == DISTRIBUTION_ID_KEY;
  }

  lemma {:induction false} NoProvisions(forms: seq<Event>)
    requires forall k :: 0 <= k < |forms| ==> forms[k].SaveForm?
    ensures Provisions(forms) == []
  {
    if forms != [] {
      NoProvisions(forms[..|forms| - 1]);
    }
  }

  lemma DecimalTrimmed(n: nat)
    ensures Trim(Decimal(n)) == Decimal(n)
  {
    hide Trim;
    TrimOfTrimmed(Decimal(n));
  }
}
