/**
 The condition predicates of the reconciler: issuer readiness, the
 "pending by this controller" test, the two tests the update-event filter
 uses, and the replacement of the Ready condition that every status write
 performs.

 Each predicate is defined once, as a quantified statement over the
 condition list; each `Scan…` method is the early-returning loop the
 controller runs, proved to decide exactly that predicate.
 */
module Conditions {
  import opened Api

  /** The issuer has a status block, and some condition in it is `Ready=True`. */
  predicate IssuerReady(status: Option<seq<IssuerCondition>>)
  {
    status.Some? &&
    exists i :: 0 <= i < |status.value| && status.value[i].ctype == ConditionReady && status.value[i].status == ConditionTrue
  }

  /**
   The request carries `digicert-issuer: "true"` and some condition, of any
   type, has reason `Pending`.
   */
  predicate RequestPending(cr: CertificateRequest)
  {
    Annotation(cr.annotations, AnnotationIssuer) == "true" &&
    exists i :: 0 <= i < |cr.status.conditions| && cr.status.conditions[i].reason == ReasonPending
  }

  /** Some condition of the request has reason `Issued`. */
  predicate RequestIssued(cr: CertificateRequest)
  {
    exists i :: 0 <= i < |cr.status.conditions| && cr.status.conditions[i].reason == ReasonIssued
  }

  /** Some condition of the request has status `True`. */
  predicate RequestStatusTrue(cr: CertificateRequest)
  {
    exists i :: 0 <= i < |cr.status.conditions| && cr.status.conditions[i].status == ConditionTrue
  }

  method ScanIssuerReady(status: Option<seq<IssuerCondition>>) returns (ready: bool)
    ensures ready <==> IssuerReady(status)
  {
    if status.None? {
      return false;
    }
    var conditions := status.value;
    for i := 0 to |conditions|
      invariant forall j :: 0 <= j < i ==> !(conditions[j].ctype == ConditionReady && conditions[j].status == ConditionTrue)
    {
      if conditions[i].ctype == ConditionReady && conditions[i].status == ConditionTrue {
        return true;
      }
    }
    return false;
  }

  method ScanPending(cr: CertificateRequest) returns (pending: bool)
    ensures pending <==> RequestPending(cr)
  {
    var acquired := Annotation(cr.annotations, AnnotationIssuer) == "true";
    var conditions := cr.status.conditions;
    for i := 0 to |conditions|
      invariant !acquired || forall j :: 0 <= j < i ==> conditions[j].reason != ReasonPending
    {
      if conditions[i].reason == ReasonPending && acquired {
        return true;
      }
    }
    return false;
  }

  method ScanIssued(cr: CertificateRequest) returns (issued: bool)
    ensures issued <==> RequestIssued(cr)
  {
    var conditions := cr.status.conditions;
    for i := 0 to |conditions|
      invariant forall j :: 0 <= j < i ==> conditions[j].reason != ReasonIssued
    {
      if conditions[i].reason == ReasonIssued {
        return true;
      }
    }
    return false;
  }

  method ScanStatusTrue(cr: CertificateRequest) returns (isTrue: bool)
    ensures isTrue <==> RequestStatusTrue(cr)
  {
    var conditions := cr.status.conditions;
    for i := 0 to |conditions|
      invariant forall j :: 0 <= j < i ==> conditions[j].status != ConditionTrue
    {
      if conditions[i].status == ConditionTrue {
        return true;
      }
    }
    return false;
  }

  /** Whether an update event for `cr` reaches the work queue. */
  predicate UpdatePasses(cr: CertificateRequest)
  {
    !RequestStatusTrue(cr) || !RequestIssued(cr) || |cr.status.certificate| == 0
  }

  /**
   The update-event filter as the controller evaluates it, from the three
   condition scans: an update is dropped exactly when some condition is
   `True`, some condition has reason `Issued`, and a certificate is present.
   */
  method FilterUpdate(cr: CertificateRequest) returns (pass: bool)
    ensures !pass <==>
              (exists i :: 0 <= i < |cr.status.conditions| && cr.status.conditions[i].status == ConditionTrue) &&
              (exists i :: 0 <= i < |cr.status.conditions| && cr.status.conditions[i].reason == ReasonIssued) &&
              |cr.status.certificate| > 0
    ensures pass == UpdatePasses(cr)
  {
    var isTrue := ScanStatusTrue(cr);
    if !isTrue {
      return true;
    }
    var issued := ScanIssued(cr);
    if !issued {
      return true;
    }
    return |cr.status.certificate| == 0;
  }

  /** No two conditions in `cs` have type `t`, as the API server's keying of conditions by type keeps it. */
  predicate AtMostOneOfType(cs: seq<Condition>, t: string)
  {
    forall i, j :: 0 <= i < j < |cs| && cs[i].ctype == t ==> cs[j].ctype != t
  }

  /** `k` is the position of the first condition of type `t` in `cs`. */
  predicate FirstOfType(cs: seq<Condition>, t: string, k: int)
  {
    0 <= k < |cs| && cs[k].ctype == t && forall j :: 0 <= j < k ==> cs[j].ctype != t
  }

  predicate NoneOfType(cs: seq<Condition>, t: string)
  {
    forall i :: 0 <= i < |cs| ==> cs[i].ctype != t
  }

  /**
   Sets a condition the way cert-manager's `SetCertificateRequestCondition`
   does: the first condition of the same type is overwritten in place, and
   when there is none the new condition is appended.
   */
  function SetCondition(cs: seq<Condition>, c: Condition): (r: seq<Condition>)
    ensures c in r
    ensures forall x :: x in r ==> x == c || x in cs
    ensures forall i :: 0 <= i < |cs| && cs[i].ctype != c.ctype ==> cs[i] in r
    ensures |r| == |cs| <==> exists i :: 0 <= i < |cs| && cs[i].ctype == c.ctype
    ensures |r| == |cs| || |r| == |cs| + 1
  {
    if |cs| == 0 then [c]
    else if cs[0].ctype == c.ctype then [c] + cs[1..]
    else
      var rest := SetCondition(cs[1..], c);
      assert forall i :: 1 <= i < |cs| ==> cs[i] == cs[1..][i - 1];
      [cs[0]] + rest
  }

  /** Where the new condition lands: at the first condition of its type, or appended. */
  lemma {:induction false} SetConditionPlacement(cs: seq<Condition>, c: Condition)
    ensures NoneOfType(cs, c.ctype) ==> SetCondition(cs, c) == cs + [c]
    ensures forall k :: FirstOfType(cs, c.ctype, k) ==> SetCondition(cs, c) == cs[k := c]
  {
    if |cs| > 0 && cs[0].ctype != c.ctype {
      var tail := cs[1..];
      SetConditionPlacement(tail, c);
      assert SetCondition(cs, c) == [cs[0]] + SetCondition(tail, c);
      if NoneOfType(cs, c.ctype) {
        assert NoneOfType(tail, c.ctype) by {
          forall i | 0 <= i < |tail| ensures tail[i].ctype != c.ctype {
            assert tail[i] == cs[i + 1];
          }
        }
        assert [cs[0]] + (tail + [c]) == cs + [c];
      }
      forall k | FirstOfType(cs, c.ctype, k)
        ensures SetCondition(cs, c) == cs[k := c]
      {
        assert tail[k - 1] == cs[k];
        forall j | 0 <= j < k - 1 ensures tail[j].ctype != c.ctype {
          assert tail[j] == cs[j + 1];
        }
        assert FirstOfType(tail, c.ctype, k - 1);
        assert [cs[0]] + tail[k - 1 := c] == cs[k := c];
      }
    } else if |cs| > 0 {
      forall k | FirstOfType(cs, c.ctype, k)
        ensures SetCondition(cs, c) == cs[k := c]
      {
        assert k == 0;
        assert [c] + cs[1..] == cs[0 := c];
      }
    }
  }

  /**
   When conditions are keyed by type, setting one leaves exactly one
   condition of that type, and it is the new one.
   */
  lemma SetConditionReplaces(cs: seq<Condition>, c: Condition)
    ensures AtMostOneOfType(cs, c.ctype) ==> AtMostOneOfType(SetCondition(cs, c), c.ctype)
    ensures AtMostOneOfType(cs, c.ctype) ==> forall x :: x in SetCondition(cs, c) && x.ctype == c.ctype ==> x == c
  {
    SetConditionPlacement(cs, c);
    var r := SetCondition(cs, c);
    if !AtMostOneOfType(cs, c.ctype) {
    } else if NoneOfType(cs, c.ctype) {
      assert r == cs + [c];
      assert forall i :: 0 <= i < |cs| ==> r[i] == cs[i];
    } else {
      var k :| 0 <= k < |cs| && cs[k].ctype == c.ctype;
      assert FirstOfType(cs, c.ctype, k);
      assert r == cs[k := c];
    }
  }
}
