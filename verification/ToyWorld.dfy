/**
 What is assumed of a delivery's primitives can all be met at once: a concrete toy world,
 with canonical texts and keys built from self-delimiting codes.
 */
module ToyWorld {
  import opened Common
  import opened ArchiveCodec
  import opened Authenticity
  import opened Delivery
  import opened Transcript

  /** A self-delimiting code: reading undoes writing and leaves what follows. */
  datatype Code<!T> = Code(write: T -> seq<nat>, read: seq<nat> -> Option<(T, seq<nat>)>)

  ghost predicate Good<T(!new)>(c: Code<T>) {
    forall x, rest :: c.read(c.write(x) + rest) == Some((x, rest))
  }

  function Numbers(): Code<nat> {
    Code((n: nat) => [n], (s: seq<nat>) => if s == [] then None else Some((s[0], s[1..])))
  }

  lemma NumbersAreGood()
    ensures Good(Numbers())
  {
    forall n: nat, rest: seq<nat> ensures ([n] + rest)[0] == n && ([n] + rest)[1..] == rest {}
  }

  function Both<S, T>(a: Code<S>, b: Code<T>): Code<(S, T)> {
    Code((p: (S, T)) => a.write(p.0) + b.write(p.1),
         (s: seq<nat>) =>
           match a.read(s)
           case None => None
           case Some(x) =>
             match b.read(x.1)
             case None => None
             case Some(y) => Some(((x.0, y.0), y.1)))
  }

  lemma BothIsGood<S(!new), T(!new)>(a: Code<S>, b: Code<T>)
    requires Good(a) && Good(b)
    ensures Good(Both(a, b))
  {
    forall p: (S, T), rest: seq<nat> ensures Both(a, b).read(Both(a, b).write(p) + rest) == Some((p, rest)) {
      assert a.write(p.0) + b.write(p.1) + rest == a.write(p.0) + (b.write(p.1) + rest);
    }
  }

  /** A code for what `to` maps injectively into a coded type. */
  function Through<S, T>(c: Code<S>, to: T -> S, back: S -> T): Code<T> {
    Code((x: T) => c.write(to(x)),
         (s: seq<nat>) => match c.read(s) case None => None case Some(x) => Some((back(x.0), x.1)))
  }

  lemma ThroughIsGood<S(!new), T(!new)>(c: Code<S>, to: T -> S, back: S -> T)
    requires Good(c) && forall x :: back(to(x)) == x
    ensures Good(Through(c, to, back))
  {
    forall x: T, rest: seq<nat>
      ensures Through(c, to, back).read(Through(c, to, back).write(x) + rest) == Some((x, rest))
    {
      assert c.read(c.write(to(x)) + rest) == Some((to(x), rest));
    }
  }

  function WriteAll<T>(c: Code<T>, xs: seq<T>): seq<nat> {
    if xs == [] then [] else c.write(xs[0]) + WriteAll(c, xs[1..])
  }

  function ReadAll<T>(c: Code<T>, n: nat, s: seq<nat>): Option<(seq<T>, seq<nat>)> {
    if n == 0 then Some(([], s))
    else match c.read(s)
      case None => None
      case Some(x) =>
        match ReadAll(c, n - 1, x.1)
        case None => None
        case Some(xs) => Some(([x.0] + xs.0, xs.1))
  }

  lemma {:induction false} AllAreRead<T(!new)>(c: Code<T>, xs: seq<T>, rest: seq<nat>)
    requires Good(c)
    ensures ReadAll(c, |xs|, WriteAll(c, xs) + rest) == Some((xs, rest))
  {
    if xs == [] {
      assert [] + rest == rest;
    } else {
      AllAreRead(c, xs[1..], rest);
      assert WriteAll(c, xs) + rest == c.write(xs[0]) + (WriteAll(c, xs[1..]) + rest);
      assert [xs[0]] + xs[1..] == xs;
    }
  }

  function List<T>(c: Code<T>): Code<seq<T>> {
    Code((xs: seq<T>) => [|xs| as nat] + WriteAll(c, xs),
         (s: seq<nat>) => if s == [] then None else ReadAll(c, s[0], s[1..]))
  }

  lemma ListIsRead<T(!new)>(c: Code<T>, xs: seq<T>, rest: seq<nat>)
    requires Good(c)
    ensures List(c).read(List(c).write(xs) + rest) == Some((xs, rest))
  {
    AllAreRead(c, xs, rest);
    var all := WriteAll(c, xs);
    var written := [|xs| as nat] + all + rest;
    assert written[0] == |xs| && written[1..] == all + rest;
  }

  lemma ListIsGood<T(!new)>(c: Code<T>)
    requires Good(c)
    ensures Good(List(c))
  {
    forall xs: seq<T>, rest: seq<nat> ensures List(c).read(List(c).write(xs) + rest) == Some((xs, rest)) {
      ListIsRead(c, xs, rest);
    }
  }

  function Folded(): int -> nat { i => if i < 0 then -2 * i - 1 else 2 * i }
  function Unfolded(): nat -> int { (n: nat) => if n % 2 == 1 then -(n / 2) - 1 else n / 2 }

  function Ordinal(): char -> nat { c => c as nat }
  function Letter(): nat -> char { (n: nat) => if n < 0xD800 || 0xE000 <= n < 0x11_0000 then n as char else '?' }

  function Value(): byte -> nat { b => b }
  function Octet(): nat -> byte { (n: nat) => if n < 256 then n else 0 }

  function Integers(): Code<int> { Through(Numbers(), Folded(), Unfolded()) }
  function Letters(): Code<char> { Through(Numbers(), Ordinal(), Letter()) }
  function Octets(): Code<byte> { Through(Numbers(), Value(), Octet()) }

  lemma LeavesAreGood()
    ensures Good(Integers()) && Good(List(Letters())) && Good(List(Octets()))
  {
    NumbersAreGood();
    ThroughIsGood<nat, int>(Numbers(), Folded(), Unfolded());
    ThroughIsGood<nat, char>(Numbers(), Ordinal(), Letter());
    ThroughIsGood<nat, byte>(Numbers(), Value(), Octet());
    ListIsGood<char>(Letters());
    ListIsGood<byte>(Octets());
  }

  function Listed<T>(o: Option<T>): seq<T> { if o.None? then [] else [o.value] }
  function Unlisted<T>(s: seq<T>): Option<T> { if s == [] then None else Some(s[0]) }

  function Maybe<T>(c: Code<T>): Code<Option<T>> {
    Through(List(c), (o: Option<T>) => Listed(o), (s: seq<T>) => Unlisted(s))
  }

  lemma MaybeIsGood<T(!new)>(c: Code<T>)
    requires Good(c)
    ensures Good(Maybe(c))
  {
    ListIsGood(c);
    ThroughIsGood(List(c), (o: Option<T>) => Listed(o), (s: seq<T>) => Unlisted(s));
  }

  function At<T>(m: map<Role, T>, role: Role): Option<T> { if role in m then Some(m[role]) else None }

  function Triple<T>(m: map<Role, T>): (Option<T>, (Option<T>, Option<T>)) {
    (At(m, Current), (At(m, Baseline), At(m, Peer)))
  }

  function Untriple<T>(t: (Option<T>, (Option<T>, Option<T>))): map<Role, T> {
    (if t.0.Some? then map[Current := t.0.value] else map[])
    + (if t.1.0.Some? then map[Baseline := t.1.0.value] else map[])
    + (if t.1.1.Some? then map[Peer := t.1.1.value] else map[])
  }

  lemma TripleIsInvertible<T>(m: map<Role, T>)
    ensures Untriple(Triple(m)) == m
  {
    forall role: Role ensures role in m <==> role in Untriple(Triple(m)) {
      match role { case Current => case Baseline => case Peer => }
    }
  }

  function PerRole<T>(c: Code<T>): Code<map<Role, T>> {
    Through(Both(Maybe(c), Both(Maybe(c), Maybe(c))), (m: map<Role, T>) => Triple(m),
            (t: (Option<T>, (Option<T>, Option<T>))) => Untriple(t))
  }

  lemma PerRoleIsGood<T(!new)>(c: Code<T>)
    requires Good(c)
    ensures Good(PerRole(c))
  {
    MaybeIsGood(c);
    BothIsGood(Maybe(c), Maybe(c));
    BothIsGood(Maybe(c), Both(Maybe(c), Maybe(c)));
    forall m: map<Role, T> ensures Untriple(Triple(m)) == m { TripleIsInvertible(m); }
    ThroughIsGood(Both(Maybe(c), Both(Maybe(c), Maybe(c))), (m: map<Role, T>) => Triple(m),
                  (t: (Option<T>, (Option<T>, Option<T>))) => Untriple(t));
  }

  type BoundFields = (string, (int, (string, (int, string))))

  function Bounds(): Code<Bound> {
    var text := List(Letters());
    Through(Both(text, Both(Integers(), Both(text, Both(Integers(), text)))),
            (b: Bound) => (b.nonce, (b.size, (b.sha256, (b.ciphertextSize, b.ciphertextSha256)))),
            (f: BoundFields) => Bound(f.0, f.1.0, f.1.1.0, f.1.1.1.0, f.1.1.1.1))
  }

  lemma BoundsAreGood()
    ensures Good(Bounds())
  {
    var text := List(Letters());
    LeavesAreGood();
    BothIsGood(Integers(), text);
    BothIsGood(text, Both(Integers(), text));
    BothIsGood(Integers(), Both(text, Both(Integers(), text)));
    BothIsGood(text, Both(Integers(), Both(text, Both(Integers(), text))));
    ThroughIsGood(Both(text, Both(Integers(), Both(text, Both(Integers(), text)))),
                  (b: Bound) => (b.nonce, (b.size, (b.sha256, (b.ciphertextSize, b.ciphertextSha256)))),
                  (f: BoundFields) => Bound(f.0, f.1.0, f.1.1.0, f.1.1.1.0, f.1.1.1.1));
  }

  type PayloadFields = ((string, (string, string)), ((map<Role, string>, map<Role, Bound>), (int, seq<byte>)))

  function ToFields(p: Payload): PayloadFields {
    ((p.request, (p.sources, p.target)), ((p.inputs, p.archives), (p.expiresAt, p.invitation)))
  }

  function OfFields(f: PayloadFields): Payload {
    Payload(f.0.0, f.0.1.0, f.0.1.1, f.1.0.0, f.1.0.1, f.1.1.0, f.1.1.1)
  }

  function Names(): Code<(string, (string, string))> { Both(List(Letters()), Both(List(Letters()), List(Letters()))) }
  function Tables(): Code<(map<Role, string>, map<Role, Bound>)> { Both(PerRole(List(Letters())), PerRole(Bounds())) }
  function Authority(): Code<(int, seq<byte>)> { Both(Integers(), List(Octets())) }

  function Payloads(): Code<Payload> {
    Through(Both(Names(), Both(Tables(), Authority())), (p: Payload) => ToFields(p), (f: PayloadFields) => OfFields(f))
  }

  lemma PayloadsAreGood()
    ensures Good(Payloads())
  {
    LeavesAreGood();
    BoundsAreGood();
    PerRoleIsGood(List(Letters()));
    PerRoleIsGood(Bounds());
    BothIsGood(List(Letters()), List(Letters()));
    BothIsGood(List(Letters()), Both(List(Letters()), List(Letters())));
    BothIsGood(PerRole(List(Letters())), PerRole(Bounds()));
    BothIsGood(Integers(), List(Octets()));
    BothIsGood(Tables(), Authority());
    BothIsGood(Names(), Both(Tables(), Authority()));
    ThroughIsGood(Both(Names(), Both(Tables(), Authority())), (p: Payload) => ToFields(p),
                  (f: PayloadFields) => OfFields(f));
  }

  /** Numbers as octets: each as so many ones and a zero. */
  function Unary(s: seq<nat>): seq<byte> {
    if s == [] then [] else seq(s[0], i => 1 as byte) + [0] + Unary(s[1..])
  }

  function Tally(b: seq<byte>, ones: nat): seq<nat> {
    if b == [] then [] else if b[0] == 0 then [ones] + Tally(b[1..], 0) else Tally(b[1..], ones + 1)
  }

  lemma {:induction false} TallyOfOnes(n: nat, ones: nat, rest: seq<byte>)
    ensures Tally(seq(n, i => 1 as byte) + [0] + rest, ones) == [ones + n] + Tally(rest, 0)
  {
    var b := seq(n, i => 1 as byte) + [0] + rest;
    if n == 0 {
      assert b == [0] + rest;
    } else {
      TallyOfOnes(n - 1, ones + 1, rest);
      assert b[1..] == seq(n - 1, i => 1 as byte) + [0] + rest;
    }
  }

  lemma {:induction false} TallyOfUnary(s: seq<nat>)
    ensures Tally(Unary(s), 0) == s
  {
    if s != [] {
      TallyOfOnes(s[0], 0, Unary(s[1..]));
      TallyOfUnary(s[1..]);
    }
  }

  function Parsed(b: seq<byte>): Option<Payload> {
    match Payloads().read(Tally(b, 0)) case None => None case Some(x) => Some(x.0)
  }

  lemma ParsedCanonical(p: Payload)
    ensures Parsed(Unary(Payloads().write(p))) == Some(p)
  {
    PayloadsAreGood();
    ReadFromUnary(Payloads(), p);
  }

  lemma ReadFromUnary<T(!new)>(c: Code<T>, x: T)
    requires Good(c)
    ensures c.read(Tally(Unary(c.write(x)), 0)) == Some((x, []))
  {
    TallyOfUnary(c.write(x));
    assert c.write(x) + [] == c.write(x);
  }

  const ZEROS: seq<byte> := seq(32, i => 0 as byte)

  function Seeds(): Code<(seq<byte>, (string, string))> { Both(List(Octets()), Both(List(Letters()), List(Letters()))) }

  /** A derivation that gives every secret, request and purpose a key of its own. */
  function Derived(secret: seq<byte>, request: string, info: string): seq<byte> {
    Unary(Seeds().write((secret, (request, info))))
  }

  lemma DerivedIsInjective(secret: seq<byte>, request: string, info: string, secret': seq<byte>, request': string,
                           info': string)
    requires Derived(secret, request, info) == Derived(secret', request', info')
    ensures secret == secret' && request == request' && info == info'
  {
    LeavesAreGood();
    BothIsGood(List(Letters()), List(Letters()));
    BothIsGood(List(Octets()), Both(List(Letters()), List(Letters())));
    ReadFromUnary(Seeds(), (secret, (request, info)));
    ReadFromUnary(Seeds(), (secret', (request', info')));
  }

  function Toy(suite: Suite): World {
    World(suite, a => ZEROS, (a, b) => Some(ZEROS), (secret, request, info) => Derived(secret, request, info),
          (p: Payload) => Unary(Payloads().write(p)), b => Parsed(b),
          (sealed: Sealed) => seq(|sealed.ciphertext|, i => 0 as byte))
  }

  lemma ToyIsLawful(suite: Suite)
    requires Lawful(suite)
    ensures LawfulWorld(Toy(suite))
  {
    var w := Toy(suite);
    forall p: Payload ensures w.parse(w.canonical(p)) == Some(p) { ParsedCanonical(p); }
  }

  /** There is a world in which every law of a delivery holds. */
  lemma DeliveryLawsAreConsistent()
    ensures exists w: World :: LawfulWorld(w)
  {
    LawsAreConsistent();
    var suite: Suite :| Lawful(suite);
    ToyIsLawful(suite);
  }

  lemma ToyKeysAreApart(suite: Suite, sent: set<Sent>, secret: seq<byte>, request: string, purpose: string)
    ensures KeyApart(Toy(suite), sent, secret, request, purpose)
  {
    forall x | x in sent && KeyOf(Toy(suite), x) == Toy(suite).derive(secret, request, Info(purpose))
      ensures x.secret == secret && x.request == request && Info(PurposeOf(x)) == Info(purpose)
    {
      DerivedIsInjective(x.secret, x.request, Info(PurposeOf(x)), secret, request, Info(purpose));
    }
  }

  /** What was sealed does not depend on how the cipher works. */
  lemma SameUses(a: Suite, b: Suite, sent: set<Sent>, e: Entry)
    ensures Uses(Toy(a), sent)(e) <==> Uses(Toy(b), sent)(e)
  {
    forall x: Sent ensures UseOf(Toy(a), x, e) <==> UseOf(Toy(b), x, e) {
      if x.Archive? { assert ArchivedOf(Toy(a), x) == ArchivedOf(Toy(b), x); }
    }
  }

  /** Whatever is sealed by whomever, and for any few originals: there is a world that keeps
      every law, derives no key twice, has no collision for an original, and in which no
      bytes that lack some octet are a forgery. */
  lemma DeliveryAssumptionsAreConsistent(sent: set<Sent>, mark: byte, originals: seq<seq<byte>>) returns (w: World)
    requires |originals| < 10
    ensures LawfulWorld(w)
    ensures forall secret, request, purpose :: KeyApart(w, sent, secret, request, purpose)
    ensures forall key, n, x, c | mark !in x :: OpensOnlySealed(w.suite, Uses(w, sent), key, n, x, c)
    ensures forall session, bytes | mark !in bytes :: AllSealed(w.suite, Uses(w, sent), session, bytes)
    ensures forall d, o | o in originals && w.suite.hash(d) == w.suite.hash(o) :: d == o
  {
    var any := Marked(e => true, mark, originals);
    var suite := AssumptionsAreConsistent(Uses(Toy(any), sent), mark, originals);
    w := Toy(suite);
    ToyIsLawful(suite);
    forall secret, request, purpose ensures KeyApart(w, sent, secret, request, purpose) {
      ToyKeysAreApart(suite, sent, secret, request, purpose);
    }
    forall key, n, x, c | mark !in x ensures OpensOnlySealed(w.suite, Uses(w, sent), key, n, x, c) {
      SealedThere(any, suite, sent, key, n, x, c);
    }
    forall session, bytes | mark !in bytes ensures AllSealed(w.suite, Uses(w, sent), session, bytes) {
      NothingForged(w.suite, Uses(w, sent), session, bytes);
    }
  }

  lemma SealedThere(a: Suite, b: Suite, sent: set<Sent>, key: seq<byte>, n: seq<byte>, x: seq<byte>, c: Context)
    requires OpensOnlySealed(b, Uses(Toy(a), sent), key, n, x, c)
    ensures OpensOnlySealed(b, Uses(Toy(b), sent), key, n, x, c)
  {
    if b.open(key, n, x, c).Some? { SameUses(a, b, sent, Entry(key, n, c, b.open(key, n, x, c).value)); }
  }
}
