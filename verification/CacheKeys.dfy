/**
 The text that identifies a request in the exact cache: the joined prompt that is
 hashed, and the Redis key built from model and digest.
 */
module CacheKeys {
  datatype Role = System | User | Assistant

  datatype Message = Message(role: Role, content: string)

  function RoleName(r: Role): (n: string)
    ensures ':' !in n && '|' !in n && n != []
  {
    match r
    case System => "system"
    case User => "user"
    case Assistant => "assistant"
  }

  /** `role:content`, followed by the text of the later messages. */
  function Rendered(m: Message, later: string): string {
    RoleName(m.role) + (":" + (m.content + later))
  }

  /** `"|".join(f"{role}:{content}" for ...)`. */
  function Joined(ms: seq<Message>): string {
    if ms == [] then [] else Rendered(ms[0], Later(ms[1..]))
  }

  /** The messages after the first one, each behind a bar. */
  function Later(ms: seq<Message>): string {
    if ms == [] then [] else "|" + Rendered(ms[0], Later(ms[1..]))
  }

  /** The text hashed by `prompt_hash`. */
  function Raw(model: string, ms: seq<Message>): string {
    model + "|" + Joined(ms)
  }

  function L1Key(model: string, digest: string): string {
    "cache:" + model + ":" + digest
  }

  /** Keys with digests of one length name one model and one digest, colons in the model included. */
  lemma L1KeyInjective(model: string, digest: string, model': string, digest': string)
    requires |digest| == |digest'|
    requires L1Key(model, digest) == L1Key(model', digest')
    ensures model == model' && digest == digest'
  {
    var k, k' := L1Key(model, digest), L1Key(model', digest');
    assert |model| == |model'|;
    assert k[6..6 + |model|] == model && k'[6..6 + |model|] == model';
    assert k[7 + |model|..] == digest && k'[7 + |model|..] == digest';
  }

  // ----- which prompts share a key -----

  /** `c` contains `|role:` at position i, which reads as the start of another message. */
  predicate StartsMessageAt(c: string, i: nat, r: Role) {
    var mark := "|" + RoleName(r) + ":";
    i + |mark| <= |c| && c[i..i + |mark|] == mark
  }

  predicate HidesMessage(c: string) {
    exists i: nat, r :: i < |c| && StartsMessageAt(c, i, r)
  }

  predicate Unambiguous(ms: seq<Message>) {
    forall i :: 0 <= i < |ms| ==> !HidesMessage(ms[i].content)
  }

  lemma FirstColon(a: string, b: string, x: string, y: string)
    requires ':' !in a && ':' !in b
    requires a + (":" + x) == b + (":" + y)
    ensures a == b && x == y
  {
    var s, t := a + (":" + x), b + (":" + y);
    assert s[|a|] == ':' && t[|b|] == ':';
    assert forall i :: 0 <= i < |a| ==> s[i] == a[i];
    assert forall i :: 0 <= i < |b| ==> t[i] == b[i];
    assert |a| == |b|;
    assert s[..|a|] == a && t[..|b|] == b;
    assert s[|a| + 1..] == x && t[|b| + 1..] == y;
  }

  /** A content that overlaps the next message of an equal text contains that message's whole mark. */
  lemma OverlapHides(c: string, r: Role, u: string, c': string, later': string)
    requires c + ("|" + (RoleName(r) + (":" + u))) == c' + later'
    requires |c| < |c'| && (later' != [] ==> later'[0] == '|')
    ensures StartsMessageAt(c', |c|, r)
  {
    var n := RoleName(r);
    var later, mark := "|" + (n + (":" + u)), "|" + n + ":";
    var s := c + later;
    forall p | 1 <= p < |n| + 2 ensures later[p] != '|' {
      assert later[p] == if p == |n| + 1 then ':' else n[p - 1];
    }
    assert forall p :: 0 <= p < |later| ==> s[|c| + p] == later[p];
    assert later' != [] ==> s[|c'|] == later'[0];
    assert later' != [] ==> later[|c'| - |c|] == '|';
    assert |c| + |mark| <= |c'|;
    forall p | 0 <= p < |mark| ensures c'[|c| + p] == mark[p] {
      assert c'[|c| + p] == s[|c| + p] == later[p];
    }
    assert c'[|c|..|c| + |mark|] == mark;
  }

  lemma LongerContentHides(c: string, ms: seq<Message>, c': string, ms': seq<Message>)
    requires c + Later(ms) == c' + Later(ms')
    requires |c| < |c'|
    ensures HidesMessage(c')
  {
    assert ms != [] by {
      assert |c + Later(ms)| >= |c'|;
    }
    OverlapHides(c, ms[0].role, ms[0].content + Later(ms[1..]), c', Later(ms'));
  }

  lemma ContentsEqual(c: string, ms: seq<Message>, c': string, ms': seq<Message>)
    requires !HidesMessage(c) && !HidesMessage(c')
    requires c + Later(ms) == c' + Later(ms')
    ensures c == c' && Later(ms) == Later(ms')
  {
    var s, t := c + Later(ms), c' + Later(ms');
    if |c| < |c'| {
      LongerContentHides(c, ms, c', ms');
    } else if |c'| < |c| {
      LongerContentHides(c', ms', c, ms);
    } else {
      assert s[..|c|] == c && t[..|c'|] == c';
      assert s[|c|..] == Later(ms) && t[|c'|..] == Later(ms');
    }
  }

  lemma {:induction false} JoinedInjective(ms: seq<Message>, ms': seq<Message>)
    requires Unambiguous(ms) && Unambiguous(ms') && Joined(ms) == Joined(ms')
    ensures ms == ms'
  {
    if ms != [] && ms' != [] {
      var a, b, ta, tb := ms[0], ms'[0], ms[1..], ms'[1..];
      FirstColon(RoleName(a.role), RoleName(b.role), a.content + Later(ta), b.content + Later(tb));
      RoleNamesDiffer(a.role, b.role);
      ContentsEqual(a.content, ta, b.content, tb);
      LaterIsJoined(ta);
      LaterIsJoined(tb);
      JoinedInjective(ta, tb);
      assert ms == [a] + ta && ms' == [b] + tb;
    }
  }

  lemma LaterIsJoined(ms: seq<Message>)
    ensures ms != [] ==> Later(ms) != [] && Later(ms)[1..] == Joined(ms)
  {
  }

  lemma RoleNamesDiffer(r: Role, r': Role)
    requires RoleName(r) == RoleName(r')
    ensures r == r'
  {
    assert |RoleName(System)| == 6 && |RoleName(User)| == 4 && |RoleName(Assistant)| == 9;
  }

  /** The hash gives both texts digests of one length and does not make them collide. */
  predicate NoCollision(hash: string -> string, x: string, y: string) {
    |hash(x)| == |hash(y)| && (hash(x) == hash(y) ==> x == y)
  }

  /**
   Unless the hash itself collides on them, two requests share an exact-cache key exactly when they
   are for the same model and the same messages, provided no content reads as hiding a message.
   */
  lemma KeysIdentifyRequests(hash: string -> string, model: string, ms: seq<Message>,
                             model': string, ms': seq<Message>)
    requires NoCollision(hash, Raw(model, ms), Raw(model', ms'))
    requires Unambiguous(ms) && Unambiguous(ms')
    ensures L1Key(model, hash(Raw(model, ms))) == L1Key(model', hash(Raw(model', ms')))
            <==> model == model' && ms == ms'
  {
    if L1Key(model, hash(Raw(model, ms))) == L1Key(model', hash(Raw(model', ms'))) {
      L1KeyInjective(model, hash(Raw(model, ms)), model', hash(Raw(model', ms')));
      assert Raw(model, ms)[|model| + 1..] == Joined(ms);
      assert Raw(model', ms')[|model| + 1..] == Joined(ms');
      JoinedInjective(ms, ms');
    }
  }

  lemma NoBarMeansUnambiguous(ms: seq<Message>)
    requires forall i :: 0 <= i < |ms| ==> '|' !in ms[i].content
    ensures Unambiguous(ms)
  {
    forall i, k: nat, r | 0 <= i < |ms| && k < |ms[i].content| ensures !StartsMessageAt(ms[i].content, k, r) {
      assert ms[i].content[k] != '|';
      assert ("|" + RoleName(r) + ":")[0] == '|';
    }
  }

  // ----- the condition is needed -----

  lemma {:induction false} SameSuffix(p: seq<Message>, a: seq<Message>, b: seq<Message>)
    requires Later(a) == Later(b)
    ensures Later(p + a) == Later(p + b)
  {
    if p == [] {
      assert p + a == a && p + b == b;
    } else {
      var q, m := p[..|p| - 1], p[|p| - 1];
      LaterCons(m, a);
      LaterCons(m, b);
      SameSuffix(q, [m] + a, [m] + b);
      LastMoves(p, a);
      LastMoves(p, b);
    }
  }

  lemma LastMoves(p: seq<Message>, a: seq<Message>)
    requires p != []
    ensures p + a == p[..|p| - 1] + ([p[|p| - 1]] + a)
  {
  }

  lemma LaterCons(m: Message, rest: seq<Message>)
    ensures Later([m] + rest) == "|" + Rendered(m, Later(rest))
  {
    assert ([m] + rest)[1..] == rest;
  }

  lemma Regroup(a: string, role: string, b: string, t: string)
    ensures a + ("|" + role + ":" + b) + t == a + ("|" + (role + (":" + (b + t))))
  {
    var left, right := "|" + role + ":" + b, "|" + (role + (":" + (b + t)));
    assert left + t == right;
    assert a + left + t == a + (left + t);
  }

  lemma HiddenSplit(c: string, i: nat, r: Role, t: string) returns (c1: string, c2: string)
    requires StartsMessageAt(c, i, r)
    ensures c + t == c1 + ("|" + (RoleName(r) + (":" + (c2 + t))))
  {
    var n := |"|" + RoleName(r) + ":"|;
    c1, c2 := c[..i], c[i + n..];
    assert c == c1 + (c[i..i + n] + c2);
    Regroup(c1, RoleName(r), c2, t);
  }

  /** Splitting a message at a hidden one gives two messages with the same text. */
  lemma SplitCollides(m: Message, i: nat, r: Role, rest: seq<Message>) returns (a: Message, b: Message)
    requires StartsMessageAt(m.content, i, r)
    ensures Later([m] + rest) == Later([a] + ([b] + rest))
  {
    var c1, c2 := HiddenSplit(m.content, i, r, Later(rest));
    a, b := Message(m.role, c1), Message(r, c2);
    LaterCons(m, rest);
    LaterCons(b, rest);
    LaterCons(a, [b] + rest);
  }

  lemma TakenApart(ms: seq<Message>, k: nat) returns (p: seq<Message>, m: Message, rest: seq<Message>)
    requires k < |ms|
    ensures m == ms[k] && ms == p + ([m] + rest)
  {
    p, m, rest := ms[..k], ms[k], ms[k + 1..];
  }

  lemma SuffixCollides(p: seq<Message>, x: seq<Message>, y: seq<Message>)
    requires x != [] && y != [] && Later(x) == Later(y)
    ensures Joined(p + x) == Joined(p + y)
  {
    SameSuffix(p, x, y);
    LaterIsJoined(p + x);
    LaterIsJoined(p + y);
  }

  /** Every ambiguous message list shares its key text with a different, longer list. */
  lemma AmbiguousCollides(model: string, ms: seq<Message>) returns (other: seq<Message>)
    requires !Unambiguous(ms)
    ensures |other| == |ms| + 1 && Raw(model, other) == Raw(model, ms)
  {
    var k :| 0 <= k < |ms| && HidesMessage(ms[k].content);
    var i: nat, r :| i < |ms[k].content| && StartsMessageAt(ms[k].content, i, r);
    var p, m, rest := TakenApart(ms, k);
    var a, b := SplitCollides(m, i, r, rest);
    SuffixCollides(p, [m] + rest, [a] + ([b] + rest));
    other := p + ([a] + ([b] + rest));
  }

  // ----- when a request has its text to itself -----

  /**
   Every list of two or more messages shares its text with a shorter one, whose first message spells the
   second out.
   */
  lemma ManyCollide(model: string, ms: seq<Message>) returns (other: seq<Message>)
    requires |ms| >= 2
    ensures |other| == |ms| - 1 && Raw(model, other) == Raw(model, ms)
  {
    var a, b, rest := ms[0], ms[1], ms[2..];
    var c := "|" + (RoleName(b.role) + (":" + b.content));
    other := [Message(a.role, a.content + c)] + rest;
    assert other[1..] == rest && ms[1..] == [b] + rest;
    LaterCons(b, rest);
    assert a.content + c + Later(rest) == a.content + ("|" + Rendered(b, Later(rest)));
  }

  lemma {:induction false} LaterIsLong(ms: seq<Message>)
    ensures |Later(ms)| >= |ms|
  {
    if ms != [] {
      LaterIsLong(ms[1..]);
    }
  }

  /** Splitting hidden messages out, as long as there are any, ends in an unambiguous list with the same text. */
  lemma {:induction false} Normalise(model: string, ms: seq<Message>) returns (plain: seq<Message>)
    ensures Unambiguous(plain) && Raw(model, plain) == Raw(model, ms)
    ensures if Unambiguous(ms) then plain == ms else |plain| > |ms|
    decreases |Joined(ms)| - |ms|
  {
    if Unambiguous(ms) {
      plain := ms;
    } else {
      var other := AmbiguousCollides(model, ms);
      SameRawSameJoined(model, other, ms);
      LaterIsLong(other[1..]);
      plain := Normalise(model, other);
    }
  }

  lemma SameRawSameJoined(model: string, ms: seq<Message>, ms': seq<Message>)
    requires Raw(model, ms) == Raw(model, ms')
    ensures Joined(ms) == Joined(ms')
  {
    assert Raw(model, ms)[|model| + 1..] == Joined(ms);
    assert Raw(model, ms')[|model| + 1..] == Joined(ms');
  }

  /** At most one message, and none hidden in it. */
  predicate OwnsText(ms: seq<Message>) {
    Unambiguous(ms) && |ms| <= 1
  }

  /**
   No other message list of the model has this request's hashed text, exactly when the request is at
   most one message and its content hides no other.
   */
  lemma TextIsOwnExactly(model: string, ms: seq<Message>)
    ensures (forall other :: Raw(model, other) == Raw(model, ms) ==> other == ms) <==> OwnsText(ms)
  {
    if |ms| >= 2 {
      var other := ManyCollide(model, ms);
    } else if !Unambiguous(ms) {
      var other := AmbiguousCollides(model, ms);
    } else {
      forall other | Raw(model, other) == Raw(model, ms) ensures other == ms {
        var plain := Normalise(model, other);
        SameRawSameJoined(model, plain, ms);
        JoinedInjective(plain, ms);
      }
    }
  }

  lemma RenderedAlone(m: Message)
    ensures Joined([m]) == RoleName(m.role) + (":" + m.content) && Later([m]) == "|" + Joined([m])
  {
    assert [m][1..] == [] && m.content + [] == m.content;
  }

  /** The texts on one example. */
  lemma KeyFormats()
    ensures Raw("m", [Message(User, "a"), Message(System, "b")]) == "m|user:a|system:b"
    ensures L1Key("m", "d") == "cache:m:d"
  {
    var a, b := Message(User, "a"), Message(System, "b");
    RenderedAlone(b);
    assert [a, b][1..] == [b];
    assert Joined([a, b]) == "user" + (":" + ("a" + "|system:b"));
  }
}
