/** backend/src/domain/delivery-message.ts: what identifies one send of a request to the FIFO queue. */
module DeliveryMessage {
  import opened Basics

  // The request id for the first send, `<id>-r<retryCount>` for a send after the owner's retry.
  function DeduplicationId(requestId: string, retryCount: nat): string {
    if retryCount == 0 then requestId else requestId + "-r" + Decimal(retryCount)
  }

  // An id without a hyphen cannot imitate the retry suffix.
  predicate HasNoHyphen(id: string) {
    '-' !in id
  }

  lemma UlidHasNoHyphen(id: Ulid)
    ensures HasNoHyphen(id)
  {
    assert forall i :: 0 <= i < |id| ==> IsCrockford(id[i]);
  }

  // Two retries with one deduplication id are one: the numeral holds no 'r', so the last "-r" ends the request id.
  lemma RetriesDiffer(a: string, m: nat, b: string, n: nat)
    requires m > 0 && n > 0 && DeduplicationId(a, m) == DeduplicationId(b, n)
    ensures a == b && m == n
  {
    var s := DeduplicationId(a, m);
    assert s[|a| + 1] == 'r' && s[|b| + 1] == 'r';
    assert forall i :: |a| + 2 <= i < |s| ==> s[i] == Decimal(m)[i - |a| - 2];
    assert forall i :: |b| + 2 <= i < |s| ==> s[i] == Decimal(n)[i - |b| - 2];
    assert |a| == |b|;
    assert a == s[..|a|] == s[..|b|] == b;
    assert Decimal(m) == s[|a| + 2..] == Decimal(n);
    DecimalInjective(m, n);
  }

  // The first send of a request whose id is the other send's deduplication id.
  predicate Imitates(a: string, m: nat, b: string, n: nat) {
    n == 0 && m > 0 && b == DeduplicationId(a, m)
  }

  // For any ids at all, two sends share a deduplication id exactly when they are the same send of the same request, or
  // one is the first send of a request whose id imitates a retry of the other.
  lemma DeduplicationIdsCollideExactly(a: string, m: nat, b: string, n: nat)
    ensures DeduplicationId(a, m) == DeduplicationId(b, n)
      <==> (a == b && m == n) || Imitates(a, m, b, n) || Imitates(b, n, a, m)
  {
    if m > 0 && n > 0 && DeduplicationId(a, m) == DeduplicationId(b, n) {
      RetriesDiffer(a, m, b, n);
    }
  }

  // Ids without a hyphen imitate nothing: each send has a deduplication id of its own.
  lemma DeduplicationIdInjective(a: string, m: nat, b: string, n: nat)
    requires HasNoHyphen(a) && HasNoHyphen(b)
    requires DeduplicationId(a, m) == DeduplicationId(b, n)
    ensures a == b && m == n
  {
    DeduplicationIdsCollideExactly(a, m, b, n);
    assert m != 0 ==> DeduplicationId(a, m)[|a|] == '-';
    assert n != 0 ==> DeduplicationId(b, n)[|b|] == '-';
  }

  // Without that shape of id the numbering breaks: the retry of one request collides with the
  // first send of another. (The API only ever stores ULIDs as ids.)
  lemma HyphenatedIdsCollide()
    ensures DeduplicationId("a", 1) == DeduplicationId("a-r1", 0)
  {
    assert Decimal(1) == ['1'];
    assert "a" + "-r" + ['1'] == "a-r1";
    DeduplicationIdsCollideExactly("a", 1, "a-r1", 0);
  }
}
