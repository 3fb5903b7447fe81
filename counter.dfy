/**
 The counting service (P3 src/counter.c): for every word request it counts
 the decimal digits of the word up to its NUL and sends exactly one reply.
 */
module Counter {
  import opened Definitions
  import opened CStrings

  /** isdigit in the C locale. */
  predicate IsDigit(c: char) {
    '0' <= c <= '9'
  }

  /** The number of digit characters in s. */
  function DigitCount(s: string): (n: nat)
    ensures n <= |s|
  {
    if s == [] then 0
    else DigitCount(s[..|s| - 1]) + (if IsDigit(s[|s| - 1]) then 1 else 0)
  }

  /** The positions of s that hold a digit. */
  function DigitPositions(s: string): set<int> {
    set i | 0 <= i < |s| && IsDigit(s[i])
  }

  /** DigitCount counts exactly the positions that hold a digit. */
  lemma {:induction false} DigitCountIsPositions(s: string)
    ensures DigitCount(s) == |DigitPositions(s)|
  {
    if s != [] {
      var t := s[..|s| - 1];
      DigitCountIsPositions(t);
      if IsDigit(s[|s| - 1]) {
        assert DigitPositions(s) == DigitPositions(t) + {|s| - 1};
      } else {
        assert DigitPositions(s) == DigitPositions(t);
      }
    }
  }

  lemma {:induction false} DigitCountAppend(a: string, b: string)
    ensures DigitCount(a + b) == DigitCount(a) + DigitCount(b)
    decreases |b|
  {
    if b == [] {
      assert a + b == a;
    } else {
      assert (a + b)[..|a + b| - 1] == a + b[..|b| - 1];
      DigitCountAppend(a, b[..|b| - 1]);
    }
  }

  /**
   count_number: one receive of a word buffer on MQ_WORDS, the count of the
   digits before its first NUL, and one send of that count on MQ_NUMBER_DIGITS.
   The reply depends on the received word alone.
   */
  method CountNumber(word: seq<char>) returns (nDigits: int, events: seq<Event>)
    ensures nDigits == DigitCount(CStr(word))
    ensures 0 <= nDigits <= StrLen(word)
    ensures events == [Recv(MqWords, WordMsg(CStr(word))), Send(MqNumberDigits, DigitsMsg(nDigits))]
  {
    nDigits := 0;
    events := [Recv(MqWords, WordMsg(CStr(word)))];
    var i := 0;
    while i < StrLen(word)
      invariant 0 <= i <= StrLen(word)
      invariant nDigits == DigitCount(word[..i])
    {
      assert word[..i + 1][..i] == word[..i];
      if IsDigit(word[i]) {
        nDigits := nDigits + 1;
      }
      i := i + 1;
    }
    events := events + [Send(MqNumberDigits, DigitsMsg(nDigits))];
  }

  /** The messages one request costs: the word comes in, its digit count goes out. */
  function Exchange(word: seq<char>): seq<Event> {
    [Recv(MqWords, WordMsg(CStr(word))), Send(MqNumberDigits, DigitsMsg(DigitCount(CStr(word))))]
  }

  /** The queue traffic of a run of requests served one after the other. */
  function Exchanges(requests: seq<seq<char>>): seq<Event> {
    if requests == [] then []
    else Exchanges(requests[..|requests| - 1]) + Exchange(requests[|requests| - 1])
  }

  /**
   The service strictly alternates: the 2k-th event receives the k-th word and
   the next one sends that word's digit count; nothing else is exchanged.
   */
  lemma {:induction false} ExchangesAlternate(requests: seq<seq<char>>)
    ensures |Exchanges(requests)| == 2 * |requests|
    ensures forall k :: 0 <= k < |requests| ==>
      Exchanges(requests)[2 * k] == Recv(MqWords, WordMsg(CStr(requests[k]))) &&
      Exchanges(requests)[2 * k + 1] == Send(MqNumberDigits, DigitsMsg(DigitCount(CStr(requests[k]))))
    decreases |requests|
  {
    if requests != [] {
      var init := requests[..|requests| - 1];
      ExchangesAlternate(init);
      forall k | 0 <= k < |init|
        ensures requests[k] == init[k]
      {
      }
    }
  }

  /** Serving n requests is n receives on MQ_WORDS and n sends on MQ_NUMBER_DIGITS. */
  lemma {:induction false} ExchangesCount(requests: seq<seq<char>>)
    ensures RecvsOn(Exchanges(requests), MqWords) == |requests|
    ensures SendsOn(Exchanges(requests), MqNumberDigits) == |requests|
    decreases |requests|
  {
    if requests != [] {
      var init := requests[..|requests| - 1];
      var step := Exchange(requests[|requests| - 1]);
      ExchangesCount(init);
      CountsAppend(Exchanges(init), step, MqWords);
      CountsAppend(Exchanges(init), step, MqNumberDigits);
      assert step[..1] == [step[0]];
    }
  }

  /**
   The service's main loop, run over the word buffers that arrive before it is
   stopped: one reply per request, in order, each the digit count of its word.
   */
  method Serve(requests: seq<seq<char>>) returns (replies: seq<int>, events: seq<Event>)
    ensures |replies| == |requests|
    ensures forall k :: 0 <= k < |requests| ==> replies[k] == DigitCount(CStr(requests[k]))
    ensures RecvsOn(events, MqWords) == |requests| && SendsOn(events, MqNumberDigits) == |requests|
    ensures events == Exchanges(requests)
  {
    replies, events := [], [];
    var k := 0;
    while k < |requests|
      invariant 0 <= k <= |requests| && |replies| == k
      invariant forall j :: 0 <= j < k ==> replies[j] == DigitCount(CStr(requests[j]))
      invariant events == Exchanges(requests[..k])
    {
      var reply, step := CountNumber(requests[k]);
      assert requests[..k + 1][..k] == requests[..k];
      replies, events := replies + [reply], events + step;
      k := k + 1;
    }
    assert requests[..k] == requests;
    ExchangesCount(requests);
  }
}
