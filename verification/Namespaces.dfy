/** The store keys that say which instance listens to which namespace, and
    their grouping by namespace (service/app/cfg.go). */
module Namespaces {
  import opened Results
  import opened Text
  import opened Fsm
  import opened OrderedKeys
  import opened Registry

  const NAMESPACE := "app.ns."

  function NamespaceKey(app: string, group: string, namespace: string, ip: string, port: nat): string {
    PairPrefix(NAMESPACE, app, group) + (namespace + "." + Address(ip, port))
  }

  datatype Listener = Listener(ip: string, port: int, format: string, namespace: string)

  /** The number strconv.Atoi returns beside its error: zero for bad syntax,
      the nearest int when the value is out of range. */
  function AtoiValue(s: string): int {
    var negative := s != "" && s[0] == '-';
    var digits := if s != "" && (s[0] == '-' || s[0] == '+') then s[1..] else s;
    if digits == "" || !AllDigits(digits) then 0
    else
      var n: int := Number(digits);
      if negative then (if n > TWO63 then -TWO63 else -n) else if n >= TWO63 then TWO63 - 1 else n
  }

  /** A number out of range gives the nearest int, with either sign, */
  lemma {:induction false} AtoiValueNearest(d: string)
    requires d != "" && AllDigits(d)
    ensures AtoiValue(d) == AtoiValue("+" + d) == if Number(d) < TWO63 then Number(d) else TWO63 - 1
    ensures AtoiValue("-" + d) == if Number(d) <= TWO63 then 0 - Number(d) else -TWO63
  {
    assert ("+" + d)[1..] == ("-" + d)[1..] == d;
  }

  /** and text that is no number gives zero. */
  lemma {:induction false} AtoiValueMalformed(s: string)
    requires forall d :: d != "" && AllDigits(d) ==> s != d && s != "+" + d && s != "-" + d
    ensures AtoiValue(s) == 0
  {
    if s != "" {
      assert s == [s[0]] + s[1..];
    }
  }

  // ----- extractNamespaceInfo -----

  /** The place of the nth dot, or -1. */
  function NthDot(s: string, n: nat): (i: int)
    ensures -1 <= i < |s|
  {
    if n == 0 then -1
    else
      var i := IndexOf(s, '.');
      if i < 0 || n == 1 then i
      else
        var j := NthDot(s[i + 1..], n - 1);
        if j < 0 then -1 else i + 1 + j
  }

  function CountDots(s: string): nat {
    if s == "" then 0 else CountDots(s[..|s| - 1]) + (if s[|s| - 1] == '.' then 1 else 0)
  }

  lemma {:induction false} CountNone(s: string)
    ensures CountDots(s) == 0 <==> '.' !in s
  {
    if s != "" {
      CountNone(s[..|s| - 1]);
      assert s == s[..|s| - 1] + [s[|s| - 1]];
    }
  }

  lemma {:induction false} CountAppend(a: string, b: string)
    ensures CountDots(a + b) == CountDots(a) + CountDots(b)
  {
    if b == "" {
      assert a + b == a;
    } else {
      CountAppend(a, b[..|b| - 1]);
      assert (a + b)[..|a + b| - 1] == a + b[..|b| - 1];
    }
  }

  lemma {:induction false} CountFrom(s: string, j: nat)
    requires j < |s| && s[j] == '.' && '.' !in s[..j]
    ensures CountDots(s) == 1 + CountDots(s[j + 1..])
  {
    assert s == (s[..j] + ['.']) + s[j + 1..];
    CountAppend(s[..j] + ['.'], s[j + 1..]);
    CountNone(s[..j]);
    assert (s[..j] + ['.'])[..j] == s[..j];
  }

  /** The nth dot is the dot before which n - 1 others stand. */
  lemma {:induction false} NthDotUnique(s: string, n: nat, i: nat)
    requires n >= 1 && i < |s| && s[i] == '.' && CountDots(s[..i]) == n - 1
    ensures NthDot(s, n) == i
  {
    hide IndexOf, CountDots;
    if n == 1 {
      CountNone(s[..i]);
      IndexUnique(s, '.', i);
    } else {
      var j := IndexOf(s, '.');
      DotBefore(s, i);
      SliceOfSlice(s, i, j);
      CountFrom(s[..i], j);
      NthDotUnique(s[j + 1..], n - 1, i - j - 1);
    }
  }

  lemma {:induction false} SliceOfSlice(s: string, i: nat, j: nat)
    requires j < i <= |s|
    ensures s[..i][..j] == s[..j] && s[..i][j + 1..] == s[j + 1..][..i - j - 1]
  {
  }

  lemma {:induction false} DotBefore(s: string, i: nat)
    requires i <= |s| && CountDots(s[..i]) > 0
    ensures 0 <= IndexOf(s, '.') < i
    ensures s[IndexOf(s, '.')] == '.' && '.' !in s[..IndexOf(s, '.')]
  {
    IndexSound(s, '.');
    CountNone(s[..i]);
  }

  lemma {:induction false} NthDotNone(s: string, n: nat)
    requires n >= 1 && CountDots(s) < n
    ensures NthDot(s, n) == -1
  {
    var i := IndexOf(s, '.');
    IndexSound(s, '.');
    CountNone(s);
    if i >= 0 {
      CountFrom(s, i);
      if n > 1 {
        NthDotNone(s[i + 1..], n - 1);
      }
    }
  }

  function ParseListener(remain: string): Option<Listener> {
    var nsIdx := IndexOf(remain, '.');
    if nsIdx < 0 then None else FindFormat(remain, nsIdx, IndexOf(remain[nsIdx + 1..], '.'))
  }

  function FindFormat(remain: string, nsIdx: nat, formatIdx: int): Option<Listener>
    requires nsIdx < |remain| && nsIdx + 1 + formatIdx < |remain|
  {
    if formatIdx < 0 then None
    else FromParts(Split(remain[nsIdx + formatIdx + 2..], ':'),
                   remain[nsIdx + 1..nsIdx + formatIdx + 1], remain[..nsIdx + formatIdx + 1])
  }

  function FromParts(arr: seq<string>, format: string, namespace: string): Option<Listener> {
    if |arr| != 2 then None else Some(Listener(arr[0], AtoiValue(arr[1]), format, namespace))
  }

  function ListenerOf(key: string): Option<Listener> {
    var idx := NthDot(key, 4);
    if idx < 0 then None else ParseListener(key[idx + 1..])
  }

  /** Walks the key, counting dots up to the fourth. */
  method ExtractNamespaceInfo(key: string) returns (info: Option<Listener>)
    ensures info == ListenerOf(key)
  {
    var count, idx := 0, -1;
    var i := 0;
    while i < |key|
      invariant 0 <= i <= |key| && idx == -1
      invariant count == CountDots(key[..i]) && count <= 3
    {
      assert key[..i + 1][..i] == key[..i];
      if key[i] == '.' {
        count := count + 1;
      }
      if count == 4 {
        idx := i;
        break;
      }
      i := i + 1;
    }
    if idx < 0 {
      assert key[..i] == key;
      NthDotNone(key, 4);
      return None;
    }
    NthDotUnique(key, 4, idx);
    info := ParseListener(key[idx + 1..]);
  }

  // ----- printing then parsing -----

  function Format(namespace: string): string { namespace[IndexOf(namespace, '.') + 1..] }

  predicate GoodListener(app: string, group: string, namespace: string, ip: string, port: nat) {
    '.' !in app && '.' !in group && CountDots(namespace) == 1 && ':' !in ip && port < TWO63
  }

  /** A printed namespace key parses back to its fields exactly for dot-free
      application and group, a two-part namespace, a colon-free address and a
      port that an int holds. */
  lemma {:induction false} NamespaceKeyExact(key: string, app: string, group: string, namespace: string, ip: string,
      port: nat)
    requires key == NamespaceKey(app, group, namespace, ip, port)
    ensures ListenerOf(key) == Some(Listener(ip, port, Format(namespace), namespace))
            <==> GoodListener(app, group, namespace, ip, port)
  {
    var front := PairPrefix(NAMESPACE, app, group);
    PrefixDots(front, app, group);
    if GoodListener(app, group, namespace, ip, port) {
      KeyFrom(key, front, namespace, ip, port);
    } else if ListenerOf(key) == Some(Listener(ip, port, Format(namespace), namespace)) {
      ParsedFrom(key, front, namespace, ip, port);
    }
  }

  predicate ThreeThenDot(front: string) {
    front != "" && front[|front| - 1] == '.' && CountDots(front[..|front| - 1]) == 3
  }

  lemma {:induction false} KeyFrom(key: string, front: string, namespace: string, ip: string, port: nat)
    requires ThreeThenDot(front) && CountDots(namespace) == 1 && ':' !in ip && port < TWO63
    requires key == front + (namespace + ("." + Address(ip, port)))
    ensures ListenerOf(key) == Some(Listener(ip, port, Format(namespace), namespace))
  {
    hide ListenerOf, ParseListener, CountDots, ThreeThenDot, AtoiValue, Itoa, Format;
    NoColonInItoa(port);
    AtoiValueItoa(port);
    TailParses(namespace, ip, Itoa(port));
    assert Address(ip, port) == ip + (":" + Itoa(port));
    RestAt(front, namespace + ("." + Address(ip, port)), Some(Listener(ip, port, Format(namespace), namespace)));
  }

  lemma {:induction false} RestAt(front: string, tail: string, l: Option<Listener>)
    requires ThreeThenDot(front)
    requires ParseListener(tail) == l
    ensures ListenerOf(front + tail) == l
  {
    var key := front + tail;
    assert key[..|front| - 1] == front[..|front| - 1];
    NthDotUnique(key, 4, |front| - 1);
    assert key[|front|..] == tail;
  }

  lemma {:induction false} ParsedFrom(key: string, front: string, namespace: string, ip: string, port: nat)
    requires front != "" && front[|front| - 1] == '.'
    requires key == front + (namespace + ("." + Address(ip, port)))
    requires ListenerOf(key) == Some(Listener(ip, port, Format(namespace), namespace))
    ensures ThreeThenDot(front) && CountDots(namespace) == 1 && ':' !in ip && port < TWO63
  {
    var idx, digits := ParsedKey(key, Listener(ip, port, Format(namespace), namespace));
    AtoiValueItoa(port);
    NoColonInItoa(port);
    SameFront(front, key, namespace, ip, Itoa(port), idx, digits);
  }

  lemma {:induction false} NoColonInItoa(n: nat)
    ensures ':' !in Itoa(n)
  {
    assert forall i :: 0 <= i < |Itoa(n)| ==> IsDigit(Itoa(n)[i]);
  }

  lemma {:induction false} ParsedKey(key: string, l: Listener) returns (idx: nat, digits: string)
    requires ListenerOf(key) == Some(l)
    ensures idx < |key| && CountDots(key[..idx]) == 3 && idx == NthDot(key, 4)
    ensures key[idx + 1..] == l.namespace + ("." + (l.ip + (":" + digits)))
    ensures CountDots(l.namespace) == 1 && ':' !in l.ip && ':' !in digits
    ensures AtoiValue(digits) == l.port && l.format == Format(l.namespace)
  {
    idx := NthDot(key, 4);
    NthDotSound(key, 4);
    digits := ParsedListener(key[idx + 1..], l);
  }

  lemma {:induction false} SameFront(front: string, key: string, namespace: string, ip: string, x: string, idx: nat,
      y: string)
    requires key == front + (namespace + ("." + (ip + ":" + x))) && ':' !in x && ':' !in y
    requires idx < |key| && key[idx + 1..] == namespace + ("." + (ip + (":" + y)))
    ensures x == y && |front| == idx + 1 && key[..idx] == front[..idx]
  {
    var name := namespace + ("." + ip);
    assert key == (front + name) + (":" + x) by {
      Regroup(front, namespace, ip, x);
    }
    assert key[idx + 1..] == name + (":" + y) by {
      Regroup("", namespace, ip, y);
    }
    FrontAgrees(key, front, name, x, idx + 1, y);
    assert key[..idx + 1][..idx] == key[..idx];
  }

  lemma {:induction false} Regroup(front: string, namespace: string, ip: string, digits: string)
    ensures front + (namespace + ("." + (ip + (":" + digits)))) == (front + (namespace + ("." + ip))) + (":" + digits)
    ensures ip + ":" + digits == ip + (":" + digits) && "" + namespace == namespace
  {
  }

  lemma {:induction false} FrontAgrees(key: string, front: string, name: string, x: string, n: nat, y: string)
    requires ':' !in x && ':' !in y && n <= |key|
    requires key == (front + name) + (":" + x) && key[n..] == name + (":" + y)
    ensures n == |front| && x == y && key[..n] == front
  {
    assert key == (key[..n] + name) + (":" + y);
    SameDigits(front + name, x, key[..n] + name, y);
    assert |front + name| == |key[..n] + name|;
  }

  lemma {:induction false} AtoiValueItoa(n: nat)
    ensures AtoiValue(Itoa(n)) == n <==> n < TWO63
  {
    NumberItoa(n);
    assert IsDigit(Itoa(n)[0]);
  }

  lemma {:induction false} PrefixDots(front: string, app: string, group: string)
    requires front == PairPrefix(NAMESPACE, app, group)
    ensures front != "" && front[|front| - 1] == '.'
    ensures ThreeThenDot(front) <==> '.' !in app && '.' !in group
  {
    assert front[..|front| - 1] == NAMESPACE + (app + ("." + group));
    CountAppend(NAMESPACE, app + ("." + group));
    CountAppend(app, "." + group);
    CountAppend(".", group);
    CountNone(app);
    CountNone(group);
    HeadDots();
  }

  lemma {:induction false} HeadDots()
    ensures CountDots(NAMESPACE) == 2 && CountDots(".") == 1
  {
    CountAppend("app", ".");
    CountAppend("app.", "ns");
    CountAppend("app.ns", ".");
    CountNone("app");
    CountNone("ns");
    assert "."[..0] == "";
    assert NAMESPACE == "app.ns" + ".";
    assert "app.ns" == "app." + "ns";
    assert "app." == "app" + ".";
  }

  lemma {:induction false} NthDotSound(s: string, n: nat)
    requires NthDot(s, n) >= 0
    ensures n >= 1 && s[NthDot(s, n)] == '.' && CountDots(s[..NthDot(s, n)]) == n - 1
  {
    hide IndexOf, CountDots, NthDot;
    var i, k := IndexOf(s, '.'), NthDot(s, n);
    IndexSound(s, '.');
    NthDotStep(s, n);
    if n == 1 {
      CountNone(s[..i]);
    } else {
      NthDotSound(s[i + 1..], n - 1);
      SliceOfSlice(s, k, i);
      CountFrom(s[..k], i);
    }
  }

  lemma {:induction false} NthDotStep(s: string, n: nat)
    requires NthDot(s, n) >= 0
    ensures var i, k := IndexOf(s, '.'), NthDot(s, n);
            && n >= 1 && i >= 0 && (n == 1 ==> k == i)
            && (n > 1 ==> k > i && NthDot(s[i + 1..], n - 1) == k - i - 1 && s[k] == s[i + 1..][k - i - 1])
  {
    hide IndexOf;
  }

  lemma {:induction false} NamespaceDots(namespace: string)
    requires CountDots(namespace) == 1
    ensures IndexOf(namespace, '.') >= 0 && '.' !in Format(namespace)
  {
    assert namespace[..|namespace|] == namespace;
    DotBefore(namespace, |namespace|);
    CountFrom(namespace, IndexOf(namespace, '.'));
    CountNone(Format(namespace));
  }

  lemma {:induction false} TailDots(namespace: string, rest: string)
    requires CountDots(namespace) == 1
    ensures var remain, i, f := namespace + ("." + rest), IndexOf(namespace, '.'), |Format(namespace)|;
            && i >= 0 && IndexOf(remain, '.') == i && IndexOf(remain[i + 1..], '.') == f
            && i + f + 1 == |namespace|
  {
    NamespaceDots(namespace);
    IndexSound(namespace, '.');
    var remain, i := namespace + ("." + rest), IndexOf(namespace, '.');
    assert remain[..i] == namespace[..i];
    IndexUnique(remain, '.', i);
    assert remain[i + 1..] == Format(namespace) + ("." + rest);
    FirstDot(Format(namespace), '.', rest);
  }

  lemma {:induction false} FormatAt(remain: string, i: nat, f: nat)
    requires IndexOf(remain, '.') == i && IndexOf(remain[i + 1..], '.') == f
    ensures i + 1 + f < |remain| && ParseListener(remain) == FindFormat(remain, i, f)
  {
  }

  lemma {:induction false} PartsAt(remain: string, i: nat, f: nat, arr: seq<string>)
    requires i + f + 1 < |remain| && Split(remain[i + f + 2..], ':') == arr
    ensures FindFormat(remain, i, f) == FromParts(arr, remain[i + 1..i + f + 1], remain[..i + f + 1])
  {
  }

  lemma {:induction false} AddressSplits(ip: string, digits: string)
    requires ':' !in ip && ':' !in digits
    ensures Split(ip + (":" + digits), ':') == [ip, digits]
  {
    hide IndexOf, Split;
    SplitAt(ip, ':', digits);
    SplitWhole(digits, ':');
    assert ip + [':'] + digits == ip + (":" + digits);
  }

  lemma {:induction false} SplitWhole(s: string, c: char)
    requires c !in s
    ensures Split(s, c) == [s]
  {
    hide IndexOf;
    IndexSound(s, c);
  }

  lemma {:induction false} TailParses(namespace: string, ip: string, digits: string)
    requires CountDots(namespace) == 1 && ':' !in ip && ':' !in digits
    ensures ParseListener(namespace + ("." + (ip + (":" + digits))))
        == Some(Listener(ip, AtoiValue(digits), Format(namespace), namespace))
  {
    hide AtoiValue, IndexOf, Split, CountDots;
    var rest := ip + (":" + digits);
    var remain, i, f := namespace + ("." + rest), IndexOf(namespace, '.'), |Format(namespace)|;
    TailDots(namespace, rest);
    AddressSplits(ip, digits);
    assert remain[i + f + 2..] == rest;
    FormatAt(remain, i, f);
    PartsAt(remain, i, f, [ip, digits]);
    assert remain[..i + f + 1] == namespace;
    assert remain[i + 1..i + f + 1] == namespace[i + 1..];
  }

  lemma {:induction false} ParsedListener(remain: string, l: Listener) returns (digits: string)
    requires ParseListener(remain) == Some(l)
    ensures remain == l.namespace + ("." + (l.ip + (":" + digits)))
    ensures CountDots(l.namespace) == 1 && ':' !in l.ip && ':' !in digits
    ensures AtoiValue(digits) == l.port && l.format == Format(l.namespace)
  {
    hide AtoiValue, CountDots, Split, ParseListener;
    var i, f := FoundParts(remain, l);
    FormatPart(remain, i, f);
    NamespaceParts(remain, i, f);
    SplitTwo(remain[i + f + 2..]);
    digits := Split(remain[i + f + 2..], ':')[1];
  }

  lemma {:induction false} FoundParts(remain: string, l: Listener) returns (i: int, f: int)
    requires ParseListener(remain) == Some(l)
    ensures i == IndexOf(remain, '.') && i >= 0 && f == IndexOf(remain[i + 1..], '.') && f >= 0
    ensures i + f + 2 <= |remain| && l.namespace == remain[..i + f + 1] && l.format == remain[i + 1..i + f + 1]
    ensures var arr := Split(remain[i + f + 2..], ':'); |arr| == 2 && arr[0] == l.ip && AtoiValue(arr[1]) == l.port
  {
    hide IndexOf, Split, AtoiValue, CountDots;
    i := IndexOf(remain, '.');
    f := IndexOf(remain[i + 1..], '.');
  }

  lemma {:induction false} FormatPart(remain: string, i: int, f: int)
    requires i == IndexOf(remain, '.') && i >= 0 && f >= 0 && i + f + 2 <= |remain|
    ensures Format(remain[..i + f + 1]) == remain[i + 1..i + f + 1]
  {
    hide IndexOf;
    var namespace := remain[..i + f + 1];
    IndexSound(remain, '.');
    assert namespace[..i] == remain[..i];
    IndexUnique(namespace, '.', i);
  }

  lemma {:induction false} NamespaceParts(remain: string, i: int, f: int)
    requires i == IndexOf(remain, '.') && i >= 0 && f == IndexOf(remain[i + 1..], '.') && f >= 0
    ensures i + f + 2 <= |remain| && CountDots(remain[..i + f + 1]) == 1
    ensures remain == remain[..i + f + 1] + ("." + remain[i + f + 2..])
  {
    IndexSound(remain, '.');
    IndexSound(remain[i + 1..], '.');
    TwoParts(remain, i, f);
  }

  lemma {:induction false} TwoParts(remain: string, i: nat, f: nat)
    requires i + f + 2 <= |remain| && remain[i] == '.' && remain[i + 1..][f] == '.'
    requires '.' !in remain[..i] && '.' !in remain[i + 1..][..f]
    ensures CountDots(remain[..i + f + 1]) == 1
    ensures remain == remain[..i + f + 1] + ("." + remain[i + f + 2..])
  {
    OneDot(remain[..i], remain[i + 1..][..f]);
    assert remain[..i + f + 1] == remain[..i] + "." + remain[i + 1..][..f];
    assert remain[i + f + 1] == '.';
  }

  lemma {:induction false} OneDot(a: string, b: string)
    requires '.' !in a && '.' !in b
    ensures CountDots(a + "." + b) == 1
  {
    HeadDots();
    CountAppend(a + ".", b);
    CountAppend(a, ".");
    CountNone(a);
    CountNone(b);
  }

  lemma {:induction false} SplitTwo(s: string)
    requires |Split(s, ':')| == 2
    ensures var arr := Split(s, ':'); s == arr[0] + (":" + arr[1]) && ':' !in arr[0] && ':' !in arr[1]
  {
    SplitParts(s, ':');
    IndexSound(s, ':');
    var i := IndexOf(s, ':');
    assert s == s[..i] + (":" + s[i + 1..]);
  }

  lemma {:induction false} SameDigits(a: string, x: string, b: string, y: string)
    requires ':' !in x && ':' !in y && a + (":" + x) == b + (":" + y)
    ensures a == b && x == y
  {
    var s := a + (":" + x);
    assert s[|a| + 1..] == x && s[|b| + 1..] == y && s[|a|] == ':' && s[|b|] == ':';
    LastIndexUnique(s, ':', |a|);
    LastIndexUnique(s, ':', |b|);
    assert s[..|a|] == a && s[..|b|] == b;
  }

  /** Every key: what follows its fourth dot is a namespace of two parts, a dot,
      an address, a colon and a port, with no further colon. */
  ghost predicate Names(key: string, l: Listener, front: string, digits: string) {
    && ThreeThenDot(front) && key == front + (l.namespace + ("." + (l.ip + (":" + digits))))
    && CountDots(l.namespace) == 1 && ':' !in l.ip && ':' !in digits
    && l.format == Format(l.namespace) && l.port == AtoiValue(digits)
  }

  lemma {:induction false} ListenerExact(key: string, l: Listener)
    ensures ListenerOf(key) == Some(l) <==> exists front, digits :: Names(key, l, front, digits)
  {
    hide ListenerOf, Format, AtoiValue, ThreeThenDot;
    if ListenerOf(key) == Some(l) {
      var idx, digits := ParsedKey(key, l);
      FourthDot(key, l, idx);
      assert key == key[..idx + 1] + key[idx + 1..];
      assert Names(key, l, key[..idx + 1], digits);
    }
    if front, digits :| Names(key, l, front, digits) {
      TailParses(l.namespace, l.ip, digits);
      RestAt(front, l.namespace + ("." + (l.ip + (":" + digits))), Some(l));
    }
  }

  lemma {:induction false} FourthDot(key: string, l: Listener, idx: nat)
    requires ListenerOf(key) == Some(l) && idx == NthDot(key, 4)
    ensures idx < |key| && ThreeThenDot(key[..idx + 1])
  {
    hide NthDot, CountDots;
    NthDotSound(key, 4);
    assert key[..idx + 1][..idx] == key[..idx];
  }

  // ----- GetAllNamespaceInstances -----

  function Infos(keys: seq<string>): (infos: seq<Option<Listener>>)
    ensures |infos| == |keys| && forall i :: 0 <= i < |keys| ==> infos[i] == ListenerOf(keys[i])
  {
    seq(|keys|, i requires 0 <= i < |keys| => ListenerOf(keys[i]))
  }

  /** The listeners of one namespace, in the order of their keys. */
  function ListenersOf(infos: seq<Option<Listener>>, namespace: string): seq<Listener> {
    if infos == [] then []
    else
      var rest, l := ListenersOf(infos[..|infos| - 1], namespace), infos[|infos| - 1];
      if l.Some? && l.value.namespace == namespace then rest + [l.value] else rest
  }

  ghost predicate GroupedBy(result: map<string, seq<Listener>>, infos: seq<Option<Listener>>) {
    forall ns :: At(result, ns) == if ListenersOf(infos, ns) == [] then None else Some(ListenersOf(infos, ns))
  }

  lemma {:induction false} GroupedNext(result: map<string, seq<Listener>>, infos: seq<Option<Listener>>, l: Listener,
      next: map<string, seq<Listener>>)
    requires GroupedBy(result, infos)
    requires next == result[l.namespace := (if l.namespace in result then result[l.namespace] else []) + [l]]
    ensures GroupedBy(next, infos + [Some(l)])
  {
    var more := infos + [Some(l)];
    assert more[..|infos|] == infos;
    forall ns ensures At(next, ns) == if ListenersOf(more, ns) == [] then None else Some(ListenersOf(more, ns)) {
      assert At(result, ns) == if ListenersOf(infos, ns) == [] then None else Some(ListenersOf(infos, ns));
    }
  }

  /** Groups the listeners; None if one is missing, for it is then dereferenced. */
  method Group(nsInfos: seq<Option<Listener>>) returns (result: Option<map<string, seq<Listener>>>)
    ensures result == None <==> None in nsInfos
    ensures result.Some? ==> GroupedBy(result.value, nsInfos)
  {
    var groups: map<string, seq<Listener>> := map[];
    for i := 0 to |nsInfos|
      invariant GroupedBy(groups, nsInfos[..i]) && None !in nsInfos[..i]
    {
      if nsInfos[i] == None {
        return None;
      }
      var info := nsInfos[i].value;
      ghost var before := groups;
      assert nsInfos[..i + 1] == nsInfos[..i] + [Some(info)];
      if info.namespace in groups {
        groups := groups[info.namespace := groups[info.namespace] + [info]];
      } else {
        groups := groups[info.namespace := [info]];
        assert [] + [info] == [info];
      }
      GroupedNext(before, nsInfos[..i], info, groups);
    }
    assert nsInfos[..|nsInfos|] == nsInfos;
    result := Some(groups);
  }

  lemma {:induction false} InfosNext(keys: seq<string>, k: string)
    ensures Infos(keys + [k]) == Infos(keys) + [ListenerOf(k)]
  {
    var next := keys + [k];
    forall i | 0 <= i < |next| ensures Infos(next)[i] == (Infos(keys) + [ListenerOf(k)])[i] {
      assert next[i] == if i < |keys| then keys[i] else k;
    }
  }

  /** What the listing answers when the scan yields the given keys. */
  ghost predicate Answers(result: Option<map<string, seq<Listener>>>, keys: seq<string>) {
    (result == None <==> None in Infos(keys)) && (result.Some? ==> GroupedBy(result.value, Infos(keys)))
  }

  /** None if a key does not parse. */
  method GetAllNamespaceInstances(db: Db, app: string, group: string, t: int)
    returns (result: Option<map<string, seq<Listener>>>)
    ensures exists keys :: Lists(keys, Scanned(db, PairPrefix(NAMESPACE, app, group), t).Keys) && Answers(result, keys)
  {
    var nsKeys := ScanKeys(db, PairPrefix(NAMESPACE, app, group), t);
    var nsInfos: seq<Option<Listener>> := [];
    for i := 0 to |nsKeys|
      invariant nsInfos == Infos(nsKeys[..i])
    {
      var info := ExtractNamespaceInfo(nsKeys[i]);
      nsInfos := nsInfos + [info];
      InfosNext(nsKeys[..i], nsKeys[i]);
      assert nsKeys[..i + 1] == nsKeys[..i] + [nsKeys[i]];
    }
    assert nsKeys[..|nsKeys|] == nsKeys;
    result := Group(nsInfos);
    assert Answers(result, nsKeys);
  }

  /** Every stored namespace key was printed from clean fields. */
  ghost predicate CleanNamespaces(db: Db) {
    forall k :: k in db && NAMESPACE <= k ==> Printed(k)
  }

  ghost predicate Printed(k: string) {
    exists app, group, l: Listener :: KeyOf(k, app, group, l)
  }

  /** k is the key of listener l of the pair. */
  predicate KeyOf(k: string, app: string, group: string, l: Listener) {
    l.port >= 0 && GoodListener(app, group, l.namespace, l.ip, l.port) && l.format == Format(l.namespace)
    && k == NamespaceKey(app, group, l.namespace, l.ip, l.port)
  }

  lemma {:induction false} KeyOfParses(k: string, app: string, group: string, l: Listener)
    requires KeyOf(k, app, group, l)
    ensures ListenerOf(k) == Some(l)
  {
    NamespaceKeyExact(k, app, group, l.namespace, l.ip, l.port);
  }

  lemma {:induction false} SamePair(k: string, app: string, group: string, app': string, group': string, l: Listener)
    requires KeyOf(k, app', group', l) && '.' !in app && '.' !in group && PairPrefix(NAMESPACE, app, group) <= k
    ensures KeyOf(k, app, group, l)
  {
    PrefixSelects(NAMESPACE, app, group, app', group', l.namespace + ("." + Address(l.ip, l.port)));
  }

  lemma {:induction false} ScannedListener(db: Db, app: string, group: string, t: int, k: string) returns (l: Listener)
    requires CleanNamespaces(db) && '.' !in app && '.' !in group
        && k in Scanned(db, PairPrefix(NAMESPACE, app, group), t)
    ensures KeyOf(k, app, group, l) && ListenerOf(k) == Some(l)
  {
    assert NAMESPACE <= k;
    var app', group';
    app', group', l :| KeyOf(k, app', group', l);
    SamePair(k, app, group, app', group', l);
    KeyOfParses(k, app, group, l);
  }

  lemma {:induction false} ListedOnce(keys: seq<string>, infos: seq<Option<Listener>>, l: Listener, mine: string)
    requires Sorted(keys) && |infos| == |keys|
    requires forall i :: 0 <= i < |keys| ==> (infos[i] == Some(l) <==> keys[i] == mine)
    ensures multiset(ListenersOf(infos, l.namespace))[l] == if mine in keys then 1 else 0
  {
    hide Before;
    if keys != [] {
      var n := |keys| - 1;
      ListedOnce(keys[..n], infos[..n], l, mine);
      assert keys == keys[..n] + [keys[n]];
      if mine in keys[..n] {
        Irreflexive(mine);
      }
    }
  }

  lemma {:induction false} ScannedInfo(db: Db, app: string, group: string, t: int, k: string, l: Listener, mine: string)
    requires CleanNamespaces(db) && KeyOf(mine, app, group, l) && k in Scanned(db, PairPrefix(NAMESPACE, app, group), t)
    ensures ListenerOf(k) != None && (ListenerOf(k) == Some(l) <==> k == mine)
  {
    var _ := ScannedListener(db, app, group, t, k);
    KeyOfParses(mine, app, group, l);
  }

  lemma {:induction false} Grouped(result: map<string, seq<Listener>>, infos: seq<Option<Listener>>, ns: string)
    requires GroupedBy(result, infos)
    ensures (if ns in result then result[ns] else []) == ListenersOf(infos, ns)
  {
    assert At(result, ns) == if ListenersOf(infos, ns) == [] then None else Some(ListenersOf(infos, ns));
  }

  lemma {:induction false} InScan(db: Db, app: string, group: string, t: int, l: Listener, mine: string)
    requires KeyOf(mine, app, group, l)
    ensures mine in Scanned(db, PairPrefix(NAMESPACE, app, group), t) <==> Shown(At(db, mine), t).Some?
  {
    assert PairPrefix(NAMESPACE, app, group) <= mine;
  }

  /** With clean keys the listing succeeds, and the instances found under a
      namespace are exactly the listeners whose key is live, each once. */
  lemma {:induction false} ListenersAreLiveKeys(db: Db, app: string, group: string, t: int, keys: seq<string>,
                             result: Option<map<string, seq<Listener>>>, l: Listener, mine: string)
    requires CleanNamespaces(db) && KeyOf(mine, app, group, l)
    requires Lists(keys, Scanned(db, PairPrefix(NAMESPACE, app, group), t).Keys) && Answers(result, keys)
    ensures result.Some?
    ensures var found := if l.namespace in result.value then result.value[l.namespace] else [];
            multiset(found)[l] == if Shown(At(db, mine), t).Some? then 1 else 0
  {
    var infos := Infos(keys);
    forall i | 0 <= i < |keys| ensures infos[i] != None && (infos[i] == Some(l) <==> keys[i] == mine) {
      assert keys[i] in keys;
      ScannedInfo(db, app, group, t, keys[i], l, mine);
    }
    ListedOnce(keys, infos, l, mine);
    Grouped(result.value, infos, l.namespace);
    InScan(db, app, group, t, l, mine);
  }
}
