/**
 * The registration lookup of one batch of numbers.  Each number is asked
 * about in turn; the answer sends "+" and the number to the found list or
 * to the not-found list, and a failed query sends it to the not-found list
 * marked " (error)" without stopping the batch.
 */
module Lookup {
  import opened Sequences

  /** What one registration query comes back with: a yes, a no, or a
      thrown error. */
  datatype Outcome = Registered | NotRegistered | Fault

  /** "+" followed by the number, as it is listed in the reply. */
  function Plus(num: string): string {
    "+" + num
  }

  /** The entry of a number in the not-found list. */
  function NotFoundEntry(num: string, o: Outcome): string {
    if o == Fault then Plus(num) + " (error)" else Plus(num)
  }

  /** What one answered query adds to the found list. */
  function FoundPart(num: string, o: Outcome): seq<string> {
    if o == Registered then [Plus(num)] else []
  }

  /** What one answered query adds to the not-found list. */
  function NotFoundPart(num: string, o: Outcome): seq<string> {
    if o == Registered then [] else [NotFoundEntry(num, o)]
  }

  /** The found list after the batch, where `outcomes[i]` is the answer to
      the query about `numbers[i]`. */
  function Found(numbers: seq<string>, outcomes: seq<Outcome>): seq<string>
    requires |numbers| == |outcomes|
  {
    if numbers == [] then []
    else
      var n := |numbers| - 1;
      Found(numbers[..n], outcomes[..n]) + FoundPart(numbers[n], outcomes[n])
  }

  /** The not-found list after the batch. */
  function NotFound(numbers: seq<string>, outcomes: seq<Outcome>): seq<string>
    requires |numbers| == |outcomes|
  {
    if numbers == [] then []
    else
      var n := |numbers| - 1;
      NotFound(numbers[..n], outcomes[..n]) + NotFoundPart(numbers[n], outcomes[n])
  }

  /** The lookup loop of main.js:102-110: one query per number, in order;
      a registered number is appended to `found`, any other to `notFound`,
      marked as an error when the query failed. */
  method CheckBatch(numbers: seq<string>, outcomes: seq<Outcome>)
    returns (found: seq<string>, notFound: seq<string>)
    requires |numbers| == |outcomes|
    ensures found == Found(numbers, outcomes)
    ensures notFound == NotFound(numbers, outcomes)
    ensures |found| + |notFound| == |numbers|
  {
    found, notFound := [], [];
    for i := 0 to |numbers|
      invariant found == Found(numbers[..i], outcomes[..i])
      invariant notFound == NotFound(numbers[..i], outcomes[..i])
      invariant |found| + |notFound| == i
    {
      BatchStep(numbers, outcomes, i);
      var num := numbers[i];
      match outcomes[i]
      case Registered =>
        found := found + ["+" + num];
      case NotRegistered =>
        notFound := notFound + ["+" + num];
      case Fault =>
        notFound := notFound + ["+" + num + " (error)"];
    }
    assert numbers[..|numbers|] == numbers;
    assert outcomes[..|outcomes|] == outcomes;
  }

  /** One more answered query extends each list by its part, and exactly
      one of the two parts holds an entry. */
  lemma BatchStep(numbers: seq<string>, outcomes: seq<Outcome>, i: nat)
    requires |numbers| == |outcomes| && i < |numbers|
    ensures |FoundPart(numbers[i], outcomes[i])| + |NotFoundPart(numbers[i], outcomes[i])| == 1
    ensures Found(numbers[..i + 1], outcomes[..i + 1])
         == Found(numbers[..i], outcomes[..i]) + FoundPart(numbers[i], outcomes[i])
    ensures NotFound(numbers[..i + 1], outcomes[..i + 1])
         == NotFound(numbers[..i], outcomes[..i]) + NotFoundPart(numbers[i], outcomes[i])
  {
    assert numbers[..i + 1][..i] == numbers[..i];
    assert outcomes[..i + 1][..i] == outcomes[..i];
  }

  // ---------------------------------------------------------------------
  // Properties of the partition

  /** Every number yields exactly one entry, in exactly one of the lists. */
  lemma {:induction false} PartitionIsTotal(numbers: seq<string>, outcomes: seq<Outcome>)
    requires |numbers| == |outcomes|
    ensures |Found(numbers, outcomes)| + |NotFound(numbers, outcomes)| == |numbers|
    decreases |numbers|
  {
    if numbers != [] {
      var n := |numbers| - 1;
      PartitionIsTotal(numbers[..n], outcomes[..n]);
    }
  }

  /** Two consecutive stretches of the batch are listed one after the
      other: the lists keep batch order, and whatever happens to one number
      does not affect the entries of the later ones. */
  lemma PartitionAppend(n1: seq<string>, o1: seq<Outcome>, n2: seq<string>, o2: seq<Outcome>)
    requires |n1| == |o1| && |n2| == |o2|
    ensures Found(n1 + n2, o1 + o2) == Found(n1, o1) + Found(n2, o2)
    ensures NotFound(n1 + n2, o1 + o2) == NotFound(n1, o1) + NotFound(n2, o2)
  {
    FoundAppend(n1, o1, n2, o2);
    NotFoundAppend(n1, o1, n2, o2);
  }

  lemma {:induction false} FoundAppend(n1: seq<string>, o1: seq<Outcome>, n2: seq<string>, o2: seq<Outcome>)
    requires |n1| == |o1| && |n2| == |o2|
    ensures Found(n1 + n2, o1 + o2) == Found(n1, o1) + Found(n2, o2)
    decreases |n2|
  {
    if n2 == [] {
      assert n1 + n2 == n1;
      assert o1 + o2 == o1;
    } else {
      var m := |n2| - 1;
      var last := FoundPart(n2[m], o2[m]);
      assert Found(n1 + n2, o1 + o2) == Found(n1 + n2[..m], o1 + o2[..m]) + last by {
        AppendLast(n1, n2);
        AppendLast(o1, o2);
      }
      FoundAppend(n1, o1, n2[..m], o2[..m]);
      Assoc(Found(n1, o1), Found(n2[..m], o2[..m]), last);
    }
  }

  lemma {:induction false} NotFoundAppend(n1: seq<string>, o1: seq<Outcome>, n2: seq<string>, o2: seq<Outcome>)
    requires |n1| == |o1| && |n2| == |o2|
    ensures NotFound(n1 + n2, o1 + o2) == NotFound(n1, o1) + NotFound(n2, o2)
    decreases |n2|
  {
    if n2 == [] {
      assert n1 + n2 == n1;
      assert o1 + o2 == o1;
    } else {
      var m := |n2| - 1;
      var last := NotFoundPart(n2[m], o2[m]);
      assert NotFound(n1 + n2, o1 + o2) == NotFound(n1 + n2[..m], o1 + o2[..m]) + last by {
        AppendLast(n1, n2);
        AppendLast(o1, o2);
      }
      NotFoundAppend(n1, o1, n2[..m], o2[..m]);
      Assoc(NotFound(n1, o1), NotFound(n2[..m], o2[..m]), last);
    }
  }

  /** The lists of a one-number batch. */
  lemma PartitionSingle(num: string, o: Outcome)
    ensures Found([num], [o]) == FoundPart(num, o)
    ensures NotFound([num], [o]) == NotFoundPart(num, o)
  {
    assert [num][..0] == [];
    assert [o][..0] == [];
  }

  /** The number at position k contributes its own entry, in its place,
      between the entries of the numbers before it and those after it:
      "+" and the number in `found` when registered, "+" and the number in
      `notFound` when not, and that followed by " (error)" in `notFound`
      when the query failed. */
  lemma Contribution(numbers: seq<string>, outcomes: seq<Outcome>, k: nat)
    requires |numbers| == |outcomes| && k < |numbers|
    ensures Found(numbers, outcomes)
         == Found(numbers[..k], outcomes[..k]) + FoundPart(numbers[k], outcomes[k])
            + Found(numbers[k + 1..], outcomes[k + 1..])
    ensures NotFound(numbers, outcomes)
         == NotFound(numbers[..k], outcomes[..k]) + NotFoundPart(numbers[k], outcomes[k])
            + NotFound(numbers[k + 1..], outcomes[k + 1..])
    ensures |FoundPart(numbers[k], outcomes[k])| + |NotFoundPart(numbers[k], outcomes[k])| == 1
  {
    assert numbers == numbers[..k] + [numbers[k]] + numbers[k + 1..];
    assert outcomes == outcomes[..k] + [outcomes[k]] + outcomes[k + 1..];
    PartitionSingle(numbers[k], outcomes[k]);
    PartitionAppend(numbers[..k], outcomes[..k], [numbers[k]], [outcomes[k]]);
    PartitionAppend(numbers[..k] + [numbers[k]], outcomes[..k] + [outcomes[k]], numbers[k + 1..], outcomes[k + 1..]);
  }

  /** A failed query for one number puts "+number (error)" in the not-found
      list and leaves the rest of the batch to be listed after it. */
  lemma FaultIsIsolated(numbers: seq<string>, outcomes: seq<Outcome>, k: nat)
    requires |numbers| == |outcomes| && k < |numbers| && outcomes[k] == Fault
    ensures Found(numbers, outcomes)
         == Found(numbers[..k], outcomes[..k]) + Found(numbers[k + 1..], outcomes[k + 1..])
    ensures NotFound(numbers, outcomes)
         == NotFound(numbers[..k], outcomes[..k]) + ["+" + numbers[k] + " (error)"]
            + NotFound(numbers[k + 1..], outcomes[k + 1..])
  {
    Contribution(numbers, outcomes, k);
    var before := Found(numbers[..k], outcomes[..k]);
    assert before + [] == before;
  }

  /** An entry is in the found list exactly when some number of the batch
      was answered "registered" and the entry is "+" and that number. */
  lemma {:induction false} FoundMembers(numbers: seq<string>, outcomes: seq<Outcome>, e: string)
    requires |numbers| == |outcomes|
    ensures e in Found(numbers, outcomes)
        <==> exists k :: 0 <= k < |numbers| && outcomes[k] == Registered && e == Plus(numbers[k])
  {
    if e in Found(numbers, outcomes) {
      FoundSound(numbers, outcomes, e);
    }
    if exists k :: 0 <= k < |numbers| && outcomes[k] == Registered && e == Plus(numbers[k]) {
      var k :| 0 <= k < |numbers| && outcomes[k] == Registered && e == Plus(numbers[k]);
      FoundComplete(numbers, outcomes, k);
    }
  }

  lemma {:induction false} FoundSound(numbers: seq<string>, outcomes: seq<Outcome>, e: string)
    requires |numbers| == |outcomes| && e in Found(numbers, outcomes)
    ensures exists k :: 0 <= k < |numbers| && outcomes[k] == Registered && e == Plus(numbers[k])
    decreases |numbers|
  {
    var n := |numbers| - 1;
    FoundLast(numbers, outcomes, e);
    if e in Found(numbers[..n], outcomes[..n]) {
      FoundSound(numbers[..n], outcomes[..n], e);
      var k :| 0 <= k < n && outcomes[..n][k] == Registered && e == Plus(numbers[..n][k]);
      assert outcomes[k] == Registered && e == Plus(numbers[k]);
    } else {
      assert outcomes[n] == Registered && e == Plus(numbers[n]);
    }
  }

  lemma FoundComplete(numbers: seq<string>, outcomes: seq<Outcome>, k: nat)
    requires |numbers| == |outcomes| && k < |numbers| && outcomes[k] == Registered
    ensures Plus(numbers[k]) in Found(numbers, outcomes)
  {
    Contribution(numbers, outcomes, k);
    var before := Found(numbers[..k], outcomes[..k]);
    AppendIndexRight(before, [Plus(numbers[k])] + Found(numbers[k + 1..], outcomes[k + 1..]), 0);
    Assoc(before, [Plus(numbers[k])], Found(numbers[k + 1..], outcomes[k + 1..]));
  }

  /** The found list grows only by the entry of the last number. */
  lemma FoundLast(numbers: seq<string>, outcomes: seq<Outcome>, e: string)
    requires |numbers| == |outcomes| && numbers != []
    ensures e in Found(numbers, outcomes)
        <==> e in Found(numbers[..|numbers| - 1], outcomes[..|numbers| - 1])
             || (outcomes[|numbers| - 1] == Registered && e == Plus(numbers[|numbers| - 1]))
  {
  }

  /** An entry is in the not-found list exactly when some number of the
      batch was answered "not registered" or failed, and the entry is that
      number's entry: "+" and the number, with " (error)" after a failure. */
  lemma {:induction false} NotFoundMembers(numbers: seq<string>, outcomes: seq<Outcome>, e: string)
    requires |numbers| == |outcomes|
    ensures e in NotFound(numbers, outcomes)
        <==> exists k :: 0 <= k < |numbers| && outcomes[k] != Registered && e == NotFoundEntry(numbers[k], outcomes[k])
  {
    if e in NotFound(numbers, outcomes) {
      NotFoundSound(numbers, outcomes, e);
    }
    if exists k :: 0 <= k < |numbers| && outcomes[k] != Registered && e == NotFoundEntry(numbers[k], outcomes[k]) {
      var k :| 0 <= k < |numbers| && outcomes[k] != Registered && e == NotFoundEntry(numbers[k], outcomes[k]);
      NotFoundComplete(numbers, outcomes, k);
    }
  }

  lemma {:induction false} NotFoundSound(numbers: seq<string>, outcomes: seq<Outcome>, e: string)
    requires |numbers| == |outcomes| && e in NotFound(numbers, outcomes)
    ensures exists k :: 0 <= k < |numbers| && outcomes[k] != Registered && e == NotFoundEntry(numbers[k], outcomes[k])
    decreases |numbers|
  {
    var n := |numbers| - 1;
    NotFoundLast(numbers, outcomes, e);
    if e in NotFound(numbers[..n], outcomes[..n]) {
      NotFoundSound(numbers[..n], outcomes[..n], e);
      var k :| 0 <= k < n && outcomes[..n][k] != Registered && e == NotFoundEntry(numbers[..n][k], outcomes[..n][k]);
      assert outcomes[k] != Registered && e == NotFoundEntry(numbers[k], outcomes[k]);
    } else {
      assert outcomes[n] != Registered && e == NotFoundEntry(numbers[n], outcomes[n]);
    }
  }

  lemma NotFoundComplete(numbers: seq<string>, outcomes: seq<Outcome>, k: nat)
    requires |numbers| == |outcomes| && k < |numbers| && outcomes[k] != Registered
    ensures NotFoundEntry(numbers[k], outcomes[k]) in NotFound(numbers, outcomes)
  {
    Contribution(numbers, outcomes, k);
    var before := NotFound(numbers[..k], outcomes[..k]);
    var entry := NotFoundEntry(numbers[k], outcomes[k]);
    AppendIndexRight(before, [entry] + NotFound(numbers[k + 1..], outcomes[k + 1..]), 0);
    Assoc(before, [entry], NotFound(numbers[k + 1..], outcomes[k + 1..]));
  }

  /** The not-found list grows only by the entry of the last number. */
  lemma NotFoundLast(numbers: seq<string>, outcomes: seq<Outcome>, e: string)
    requires |numbers| == |outcomes| && numbers != []
    ensures e in NotFound(numbers, outcomes)
        <==> e in NotFound(numbers[..|numbers| - 1], outcomes[..|numbers| - 1])
             || (outcomes[|numbers| - 1] != Registered
                 && e == NotFoundEntry(numbers[|numbers| - 1], outcomes[|numbers| - 1]))
  {
  }

  /** No entry of either list is empty or spans several lines, so the
      lists can be shown one entry per line. */
  lemma {:induction false} EntriesAreOneLine(numbers: seq<string>, outcomes: seq<Outcome>)
    requires |numbers| == |outcomes|
    requires forall k :: 0 <= k < |numbers| ==> '\n' !in numbers[k]
    ensures forall e :: e in Found(numbers, outcomes) ==> e != "" && '\n' !in e
    ensures forall e :: e in NotFound(numbers, outcomes) ==> e != "" && '\n' !in e
    decreases |numbers|
  {
    if numbers != [] {
      var n := |numbers| - 1;
      EntriesAreOneLine(numbers[..n], outcomes[..n]);
      var num := numbers[n];
      assert '\n' !in Plus(num);
      assert '\n' !in Plus(num) + " (error)";
    }
  }
}
