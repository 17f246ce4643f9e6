/** The shared prefix of a batch of keys, and of its values, found by comparing neighbours byte by byte. */
module PrefixCompression {

  import opened Varint

  datatype KeyValue = KeyValue(key: Bytes, value: Bytes)

  datatype PrefixResult = PrefixResult(key: Bytes, value: Bytes)

  ghost predicate IsCommonPrefix(p: Bytes, texts: seq<Bytes>) {
    forall t | t in texts :: p <= t
  }

  ghost predicate IsLongestCommonPrefix(p: Bytes, texts: seq<Bytes>) {
    IsCommonPrefix(p, texts) && forall q | IsCommonPrefix(q, texts) :: q <= p
  }

  function Keys(batch: seq<KeyValue>): (r: seq<Bytes>)
    ensures |r| == |batch|
  {
    seq(|batch|, i requires 0 <= i < |batch| => batch[i].key)
  }

  function Values(batch: seq<KeyValue>): (r: seq<Bytes>)
    ensures |r| == |batch|
  {
    seq(|batch|, i requires 0 <= i < |batch| => batch[i].value)
  }

  /** Every text carries the byte that the first one carries. */
  ghost predicate AgreeAt(texts: seq<Bytes>, i: nat) {
    && (forall t | t in texts :: i < |t|)
    && (forall j: nat | j + 1 < |texts| :: texts[j][i] == texts[j + 1][i])
  }

  /** Neighbours that agree are enough for all to agree. */
  lemma {:induction false} NeighboursAgree(texts: seq<Bytes>, i: nat, j: nat)
    requires AgreeAt(texts, i) && j < |texts|
    ensures texts[j][i] == texts[0][i]
  {
    if j > 0 { NeighboursAgree(texts, i, j - 1); }
  }

  /** A place at which every earlier byte agrees ends the longest common prefix when it does not agree itself. */
  lemma PrefixEnds(texts: seq<Bytes>, n: nat)
    requires texts != [] && (forall t | t in texts :: n <= |t|)
    requires forall i: nat | i < n :: AgreeAt(texts, i)
    requires (exists t :: t in texts && |t| == n) || exists j: nat :: Differs(texts, j, n)
    ensures n <= |texts[0]| && IsLongestCommonPrefix(texts[0][..n], texts)
  {
    var p := texts[0][..n];
    forall t | t in texts ensures p <= t {
      var j: nat :| j < |texts| && texts[j] == t;
      forall i: nat | i < n ensures p[i] == t[i] {
        assert AgreeAt(texts, i);
        NeighboursAgree(texts, i, j);
      }
      assert p == t[..n];
    }
    forall q | IsCommonPrefix(q, texts) ensures q <= p {
      NotLonger(texts, n, q);
      assert texts[0] in texts && q <= texts[0];
    }
  }

  lemma NotLonger(texts: seq<Bytes>, n: nat, q: Bytes)
    requires (exists t :: t in texts && |t| == n) || exists j: nat :: Differs(texts, j, n)
    requires IsCommonPrefix(q, texts)
    ensures |q| <= n
  {
    if t :| t in texts && |t| == n {
      assert q <= t;
    } else {
      var j: nat :| Differs(texts, j, n);
      assert texts[j] in texts && texts[j + 1] in texts;
      assert q <= texts[j] && q <= texts[j + 1];
    }
  }

  /** Neighbours that differ at a place. */
  ghost predicate Differs(texts: seq<Bytes>, j: nat, i: nat) {
    j + 1 < |texts| && i < |texts[j]| && i < |texts[j + 1]| && texts[j][i] != texts[j + 1][i]
  }

  /** The loops over one column of the batch. */
  method CommonPrefix(texts: seq<Bytes>) returns (view: Bytes)
    requires texts != []
    ensures IsLongestCommonPrefix(view, texts)
  {
    var minSize := |texts[0]|;
    var k := 0;
    while k < |texts|
      invariant k <= |texts| && 0 <= minSize
      invariant forall t | t in texts[..k] :: minSize <= |t|
      invariant exists t :: t in texts && |t| == minSize
    {
      if |texts[k]| < minSize {
        minSize := |texts[k]|;
      }
      k := k + 1;
    }
    assert texts[..k] == texts;
    var last := |texts| - 1;
    var i := 0;
    while i < minSize
      invariant 0 <= i <= minSize
      invariant forall m: nat | m < i :: AgreeAt(texts, m)
    {
      var j := 0;
      while j < last
        invariant 0 <= j <= last
        invariant forall m: nat | m < j :: texts[m][i] == texts[m + 1][i]
      {
        if texts[j][i] != texts[j + 1][i] {
          break;
        }
        j := j + 1;
      }
      if j != last {
        assert Differs(texts, j, i);
        break;
      }
      assert AgreeAt(texts, i);
      i := i + 1;
    }
    PrefixEnds(texts, i);
    i := i - 1;
    if i == -1 {
      view := [];
    } else {
      view := texts[0][..i + 1];
    }
  }

  ghost predicate BeginsKeys(q: Bytes, batch: seq<KeyValue>) {
    forall kv <- batch :: q <= kv.key
  }

  ghost predicate BeginsValues(q: Bytes, batch: seq<KeyValue>) {
    forall kv <- batch :: q <= kv.value
  }

  /** Comparing neighbours finds the longest string that all keys begin with, and the longest that all values do. */
  method Format16PrefixStr(batch: seq<KeyValue>) returns (result: PrefixResult)
    requires batch != []
    ensures BeginsKeys(result.key, batch) && forall q | BeginsKeys(q, batch) :: q <= result.key
    ensures BeginsValues(result.value, batch) && forall q | BeginsValues(q, batch) :: q <= result.value
  {
    var key := CommonPrefix(Keys(batch));
    var value := CommonPrefix(Values(batch));
    ColumnsAreTheBatch(key, batch);
    ColumnsAreTheBatch(value, batch);
    forall q | BeginsKeys(q, batch) ensures q <= key {
      ColumnsAreTheBatch(q, batch);
    }
    forall q | BeginsValues(q, batch) ensures q <= value {
      ColumnsAreTheBatch(q, batch);
    }
    result := PrefixResult(key, value);
  }

  lemma ColumnsAreTheBatch(q: Bytes, batch: seq<KeyValue>)
    ensures IsCommonPrefix(q, Keys(batch)) <==> BeginsKeys(q, batch)
    ensures IsCommonPrefix(q, Values(batch)) <==> BeginsValues(q, batch)
  {
    var keys, values := Keys(batch), Values(batch);
    forall kv <- batch ensures kv.key in keys && kv.value in values {
      var i: nat :| i < |batch| && batch[i] == kv;
      assert keys[i] == kv.key && values[i] == kv.value;
    }
    forall t <- keys ensures exists kv :: kv in batch && kv.key == t {
      var i: nat :| i < |keys| && keys[i] == t;
      assert batch[i] in batch;
    }
    forall t <- values ensures exists kv :: kv in batch && kv.value == t {
      var i: nat :| i < |values| && values[i] == t;
      assert batch[i] in batch;
    }
  }

  /** There is no other longest common prefix. */
  lemma LongestIsUnique(p: Bytes, q: Bytes, texts: seq<Bytes>)
    requires IsLongestCommonPrefix(p, texts) && IsLongestCommonPrefix(q, texts)
    ensures p == q
  {
    assert q <= p;
  }
}
