/** Store keys of service instances: printing, parsing and scanning
    (service/app/reg.go, service/app/service.go, service/app/def.go). */
module Registry {
  import opened Results
  import opened Text
  import opened Fsm
  import opened OrderedKeys

  const INSTANCE_INFO := "app.instance.info."
  const INSTANCE_META := "app.instance.meta."

  // ----- keys -----

  function PairPrefix(head: string, app: string, group: string): string {
    head + (app + "." + (group + "."))
  }

  function Address(ip: string, port: nat): string { ip + ":" + Itoa(port) }

  function InstKey(app: string, group: string, ip: string, port: nat): string {
    PairPrefix(INSTANCE_INFO, app, group) + Address(ip, port)
  }

  function MetaKeyOf(app: string, group: string, ip: string, port: nat): string {
    PairPrefix(INSTANCE_META, app, group) + Address(ip, port)
  }

  /** strconv.Atoi: an optional sign, digits, and a value an int can hold. */
  function Atoi(s: string): Option<int> {
    var negative := s != "" && s[0] == '-';
    var digits := if s != "" && (s[0] == '-' || s[0] == '+') then s[1..] else s;
    if digits == "" || !AllDigits(digits) then None
    else
      var n: int := Number(digits);
      var v := if negative then -n else n;
      if -TWO63 <= v < TWO63 then Some(v) else None
  }

  lemma {:induction false} AtoiItoa(n: nat)
    ensures Atoi(Itoa(n)) == if n < TWO63 then Some(n) else None
  {
    NumberItoa(n);
    assert IsDigit(Itoa(n)[0]);
  }

  /** Every text: a number is an optional sign and digits, in the range of an int. */
  lemma {:induction false} AtoiExact(s: string, v: int)
    ensures Atoi(s) == Some(v) <==>
              -TWO63 <= v < TWO63 && exists d ::
                && d != "" && AllDigits(d)
                && (if v < 0 then s == "-" + d && v == 0 - Number(d)
                    else (s == d || s == "+" + d || (s == "-" + d && v == 0)) && v == Number(d))
  {
    var digits := if s != "" && (s[0] == '-' || s[0] == '+') then s[1..] else s;
    if Atoi(s) == Some(v) {
      assert s == digits || s == "+" + digits || s == "-" + digits;
    }
  }

  // ----- extractAppInfo -----

  datatype Extracted = Instance(app: string, group: string, ip: string, port: int) | Nothing | Crash

  function ExtractAppInfo(key: string): Extracted {
    if |key| < 18 then Nothing else ParseFields(key[18..])
  }

  function ParseFields(key: string): Extracted {
    var appIdx := IndexOf(key, '.');
    if appIdx < 0 || appIdx == 0 then Nothing
    else
      var groupIdx := IndexOf(key[appIdx + 1..], '.');
      if groupIdx < 0 || groupIdx == 0 then Nothing
      else ParseAddress(key, appIdx, groupIdx, IndexOf(key, ':'))
  }

  /** A colon before the address makes the slice bounds cross, which panics. */
  function ParseAddress(key: string, appIdx: nat, groupIdx: nat, ipIdx: int): Extracted
    requires appIdx + 1 + groupIdx < |key| && ipIdx < |key|
  {
    var start := appIdx + 2 + groupIdx;
    if ipIdx < 0 then Nothing
    else if ipIdx < start then Crash
    else if ipIdx == start then Nothing
    else
      var port := Atoi(key[ipIdx + 1..]);
      if port == None || port.value < 1 then Nothing
      else Instance(key[..appIdx], key[appIdx + 1..appIdx + 1 + groupIdx], key[start..ipIdx], port.value)
  }

  predicate GoodPair(app: string, group: string) {
    app != "" && group != "" && '.' !in app && '.' !in group && ':' !in app && ':' !in group
  }

  predicate GoodAddress(ip: string, port: nat) {
    ip != "" && ':' !in ip && 1 <= port < TWO63
  }

  lemma {:induction false} FirstDot(a: string, c: char, b: string)
    requires c !in a
    ensures IndexOf(a + ([c] + b), c) == |a|
  {
    var s := a + ([c] + b);
    assert s[|a|] == c && s[..|a|] == a;
    IndexUnique(s, c, |a|);
  }

  lemma {:induction false} Cut(a: string, c: char, b: string)
    ensures var s := a + ([c] + b); s[..|a|] == a && s[|a| + 1..] == b
  {
  }

  function Fields(app: string, group: string, rest: string): string {
    app + (['.'] + (group + (['.'] + rest)))
  }

  lemma {:induction false} KeyForm(head: string, app: string, group: string, rest: string)
    ensures PairPrefix(head, app, group) + rest == head + Fields(app, group, rest)
  {
    assert (group + ".") + rest == group + (['.'] + rest);
    assert (app + "." + (group + ".")) + rest == app + (['.'] + ((group + ".") + rest));
  }

  lemma {:induction false} FieldsFront(app: string, group: string, ip: string, rest: string)
    ensures Fields(app, group, ip + ([':'] + rest)) == Fields(app, group, ip) + ([':'] + rest)
    ensures |Fields(app, group, ip)| == |app| + 2 + |group| + |ip|
  {
    assert (group + (['.'] + ip)) + ([':'] + rest) == group + (['.'] + (ip + ([':'] + rest)));
  }

  lemma {:induction false} InstanceKeyForm(app: string, group: string, ip: string, port: nat)
    ensures var whole := InstKey(app, group, ip, port);
            |whole| >= 18 && whole[18..] == Fields(app, group, ip + ([':'] + Itoa(port)))
  {
    KeyForm(INSTANCE_INFO, app, group, Address(ip, port));
    assert Address(ip, port) == ip + ([':'] + Itoa(port));
  }

  /** A printed instance key parses back to its fields exactly for dot- and
      colon-free application and group, a colon-free address, and a port that an int holds. */
  lemma {:induction false} InstanceKeyExact(app: string, group: string, ip: string, port: nat)
    ensures ExtractAppInfo(InstKey(app, group, ip, port)) == Instance(app, group, ip, port)
            <==> GoodPair(app, group) && GoodAddress(ip, port)
  {
    InstanceKeyForm(app, group, ip, port);
    var key := Fields(app, group, ip + ([':'] + Itoa(port)));
    if GoodPair(app, group) && GoodAddress(ip, port) {
      AtoiItoa(port);
      GoodFieldsParse(app, group, ip, Itoa(port));
      GoodAddressParses(app, group, ip, Itoa(port), port);
    } else if ParseFields(key) == Instance(app, group, ip, port) {
      ParsedIsGood(app, group, ip, port);
    }
  }

  lemma {:induction false} GoodFieldsParse(app: string, group: string, ip: string, digits: string)
    requires GoodPair(app, group) && ':' !in ip
    ensures var key := Fields(app, group, ip + ([':'] + digits));
            |app| + 1 + |group| < |key| && |app| + 2 + |group| + |ip| < |key|
            && ParseFields(key) == ParseAddress(key, |app|, |group|, |app| + 2 + |group| + |ip|)
  {
    hide ParseFields, ParseAddress, IndexOf;
    GoodKeyDots(app, group, ip + ([':'] + digits));
    GoodKeyColon(app, group, ip, digits);
    FieldsAt(Fields(app, group, ip + ([':'] + digits)), |app|, |group|, |app| + 2 + |group| + |ip|);
  }

  lemma {:induction false} FieldsAt(key: string, appIdx: nat, groupIdx: nat, ipIdx: nat)
    requires 0 < appIdx < |key| && IndexOf(key, '.') == appIdx
    requires 0 < groupIdx && IndexOf(key[appIdx + 1..], '.') == groupIdx && IndexOf(key, ':') == ipIdx
    ensures appIdx + 1 + groupIdx < |key| && ipIdx < |key|
    ensures ParseFields(key) == ParseAddress(key, appIdx, groupIdx, ipIdx)
  {
  }

  lemma {:induction false} GoodAddressParses(app: string, group: string, ip: string, digits: string, port: int)
    requires GoodPair(app, group) && ip != "" && ':' !in ip && Atoi(digits) == Some(port) && port >= 1
    ensures var key := Fields(app, group, ip + ([':'] + digits));
            |app| + 1 + |group| < |key| && |app| + 2 + |group| + |ip| < |key|
            && ParseAddress(key, |app|, |group|, |app| + 2 + |group| + |ip|) == Instance(app, group, ip, port)
  {
    GoodKeyDots(app, group, ip + ([':'] + digits));
    GoodKeyColon(app, group, ip, digits);
    AddressAt(Fields(app, group, ip + ([':'] + digits)), app, group, ip, digits, port);
  }

  lemma {:induction false} AddressAt(key: string, app: string, group: string, ip: string, digits: string, port: int)
    requires ip != "" && |app| + 2 + |group| + |ip| < |key|
    requires key[..|app|] == app && key[|app| + 1..|app| + 1 + |group|] == group
    requires var start := |app| + 2 + |group|; key[start..start + |ip|] == ip && key[start + |ip| + 1..] == digits
    requires Atoi(digits) == Some(port) && port >= 1
    ensures ParseAddress(key, |app|, |group|, |app| + 2 + |group| + |ip|) == Instance(app, group, ip, port)
  {
  }

  lemma {:induction false} GoodKeyDots(app: string, group: string, rest: string)
    requires '.' !in app && '.' !in group
    ensures var key := Fields(app, group, rest);
            && IndexOf(key, '.') == |app| && key[..|app|] == app
            && IndexOf(key[|app| + 1..], '.') == |group| && key[|app| + 1..|app| + 1 + |group|] == group
            && key[|app| + 2 + |group|..] == rest
  {
    var key, tail := Fields(app, group, rest), group + (['.'] + rest);
    FirstDot(app, '.', tail);
    Cut(app, '.', tail);
    FirstDot(group, '.', rest);
    Cut(group, '.', rest);
    assert key[|app| + 1..|app| + 1 + |group|] == key[|app| + 1..][..|group|];
    assert key[|app| + 2 + |group|..] == key[|app| + 1..][|group| + 1..];
  }

  lemma {:induction false} GoodKeyColon(app: string, group: string, ip: string, digits: string)
    requires ':' !in app && ':' !in group && ':' !in ip
    ensures var key, start := Fields(app, group, ip + ([':'] + digits)), |app| + 2 + |group|;
            && IndexOf(key, ':') == start + |ip| && start + |ip| < |key|
            && key[start..start + |ip|] == ip && key[start + |ip| + 1..] == digits
  {
    var front := Fields(app, group, ip);
    FieldsFront(app, group, ip, digits);
    NoColon(app, group, ip);
    FirstDot(front, ':', digits);
    Cut(front, ':', digits);
    FieldsEnd(app, group, ip, [':'] + digits);
  }

  lemma {:induction false} FieldsEnd(app: string, group: string, ip: string, rest: string)
    ensures var key, start := Fields(app, group, ip + rest), |app| + 2 + |group|;
            |key| == start + |ip| + |rest| && key[start..start + |ip|] == ip
                && key[..start + |ip|] == Fields(app, group, ip)
  {
    var key, start := Fields(app, group, ip + rest), |app| + 2 + |group|;
    assert key == app + ['.'] + group + ['.'] + (ip + rest);
    assert Fields(app, group, ip) == app + ['.'] + group + ['.'] + ip;
  }

  lemma {:induction false} NoColon(app: string, group: string, ip: string)
    ensures ':' !in Fields(app, group, ip) <==> ':' !in app && ':' !in group && ':' !in ip
  {
    var s := Fields(app, group, ip);
    assert forall c :: c in s <==> c in app || c == '.' || c in group || c in ip;
  }

  lemma {:induction false} ParsedShape(key: string, app: string, group: string, ip: string, port: int)
    requires ParseFields(key) == Instance(app, group, ip, port)
    ensures app != "" && '.' !in app && group != "" && '.' !in group && ip != "" && 1 <= port < TWO63
    ensures |app| + 2 + |group| + |ip| < |key| && ':' !in key[..|app| + 2 + |group| + |ip|]
  {
    hide IndexOf;
    var appIdx := IndexOf(key, '.');
    var groupIdx := IndexOf(key[appIdx + 1..], '.');
    IndexSound(key, '.');
    IndexSound(key[appIdx + 1..], '.');
    IndexSound(key, ':');
    assert key[appIdx + 1..appIdx + 1 + groupIdx] == key[appIdx + 1..][..groupIdx];
  }

  lemma {:induction false} ParsedIsGood(app: string, group: string, ip: string, port: nat)
    requires ParseFields(Fields(app, group, ip + ([':'] + Itoa(port)))) == Instance(app, group, ip, port)
    ensures GoodPair(app, group) && GoodAddress(ip, port)
  {
    ParsedShape(Fields(app, group, ip + ([':'] + Itoa(port))), app, group, ip, port);
    FieldsEnd(app, group, ip, [':'] + Itoa(port));
    NoColon(app, group, ip);
  }

  lemma {:induction false} SplitHere(s: string, i: nat, c: char)
    requires i < |s| && s[i] == c
    ensures s == s[..i] + ([c] + s[i + 1..])
  {
  }

  lemma {:induction false} FieldsBack(key: string, a: nat, g: nat)
    requires IndexOf(key, '.') == a && IndexOf(key[a + 1..], '.') == g
    ensures a + 2 + g <= |key| && key[a + 2 + g..] == key[a + 1..][g + 1..]
    ensures key == Fields(key[..a], key[a + 1..][..g], key[a + 2 + g..])
    ensures '.' !in key[..a] && '.' !in key[a + 1..][..g]
  {
    hide IndexOf;
    IndexSound(key, '.');
    IndexSound(key[a + 1..], '.');
    SplitHere(key, a, '.');
    SplitHere(key[a + 1..], g, '.');
  }

  /** Every key: it gives an instance exactly if, after its first 18 characters, it is an
      application, a group, an address and a port, with the separators in none of them. */
  lemma {:induction false} ExtractExact(key: string, app: string, group: string, ip: string, port: int)
    ensures ExtractAppInfo(key) == Instance(app, group, ip, port) <==>
              |key| >= 18 && exists digits ::
                && key[18..] == Fields(app, group, ip + ([':'] + digits))
                && GoodPair(app, group) && ip != "" && ':' !in ip && Atoi(digits) == Some(port) && port >= 1
  {
    hide Atoi, IndexOf, ParseAddress;
    if ExtractAppInfo(key) == Instance(app, group, ip, port) {
      ParsedFields(key[18..], app, group, ip, port);
    }
    if digits :| |key| >= 18 && key[18..] == Fields(app, group, ip + ([':'] + digits))
                 && GoodPair(app, group) && ip != "" && ':' !in ip && Atoi(digits) == Some(port) && port >= 1 {
      GoodFieldsParse(app, group, ip, digits);
      GoodAddressParses(app, group, ip, digits, port);
    }
  }

  lemma {:induction false} ParsedFields(key: string, app: string, group: string, ip: string, port: int)
    requires ParseFields(key) == Instance(app, group, ip, port)
    ensures exists digits ::
              && key == Fields(app, group, ip + ([':'] + digits))
              && GoodPair(app, group) && ip != "" && ':' !in ip && Atoi(digits) == Some(port) && port >= 1
  {
    hide Atoi, IndexOf, Fields;
    ParsedShape(key, app, group, ip, port);
    var a := IndexOf(key, '.');
    var g := IndexOf(key[a + 1..], '.');
    FieldsBack(key, a, g);
    var rest, i := key[a + 2 + g..], IndexOf(key, ':') - (a + 2 + g);
    IndexSound(key, ':');
    SplitHere(rest, i, ':');
    var digits := rest[i + 1..];
    assert key[a + 1..a + 1 + g] == key[a + 1..][..g];
    assert rest[..i] == key[a + 2 + g..a + 2 + g + i];
    assert digits == key[a + 2 + g + i + 1..];
    FieldsEnd(app, group, ip, [':'] + digits);
    NoColon(app, group, ip);
  }

  predicate ColonEarly(key: string, app: string, group: string, rest: string) {
    && key == Fields(app, group, rest) && app != "" && group != ""
    && '.' !in app && '.' !in group && (':' in app || ':' in group)
  }

  /** It panics exactly if a colon comes before the address. */
  lemma {:induction false} CrashExact(key: string)
    ensures ExtractAppInfo(key) == Crash <==>
              |key| >= 18 && exists app, group, rest :: ColonEarly(key[18..], app, group, rest)
  {
    hide Atoi, ParseFields;
    if |key| >= 18 {
      var k := key[18..];
      if ParseFields(k) == Crash {
        CrashIsEarly(k);
      }
      if app, group, rest :| ColonEarly(k, app, group, rest) {
        EarlyCrashes(k, app, group, rest);
      }
    }
  }

  lemma {:induction false} CrashIsEarly(k: string)
    requires ParseFields(k) == Crash
    ensures exists app, group, rest :: ColonEarly(k, app, group, rest)
  {
    hide Atoi, IndexOf, Fields;
    var a := IndexOf(k, '.');
    var g := IndexOf(k[a + 1..], '.');
    FieldsBack(k, a, g);
    var app, group, rest := k[..a], k[a + 1..][..g], k[a + 2 + g..];
    IndexSound(k, ':');
    ColonBefore(k, app, group, rest, IndexOf(k, ':'));
    assert ColonEarly(k, app, group, rest);
  }

  lemma {:induction false} ColonBefore(k: string, app: string, group: string, rest: string, i: nat)
    requires k == Fields(app, group, rest) && i < |app| + 2 + |group| && i < |k| && k[i] == ':'
    ensures ':' in app || ':' in group
  {
    FieldsEnd(app, group, "", rest);
    NoColon(app, group, "");
    assert "" + rest == rest && ':' in Fields(app, group, "");
  }

  lemma {:induction false} EarlyCrashes(k: string, app: string, group: string, rest: string)
    requires ColonEarly(k, app, group, rest)
    ensures ParseFields(k) == Crash
  {
    hide Atoi, IndexOf;
    GoodKeyDots(app, group, rest);
    FieldsEnd(app, group, "", rest);
    assert "" + rest == rest;
    NoColon(app, group, "");
    var front := Fields(app, group, "");
    var j :| 0 <= j < |front| && front[j] == ':';
    assert k[j] == ':';
    IndexSound(k, ':');
  }

  // ----- scanning one application and group -----

  lemma {:induction false} SameSplit(a: string, b: string, c: char, x: string, y: string)
    requires c !in a && c !in b && a + ([c] + x) == b + ([c] + y)
    ensures a == b && x == y
  {
    FirstDot(a, c, x);
    FirstDot(b, c, y);
    var s := a + ([c] + x);
    assert s[..|a|] == a && s[..|b|] == b && s[|a| + 1..] == x && s[|b| + 1..] == y;
  }

  /** The scan prefix of one pair begins the keys of that pair and of no other. */
  lemma {:induction false} PrefixSelects(head: string, app: string, group: string, app': string, group': string,
      rest: string)
    requires '.' !in app && '.' !in group && '.' !in app' && '.' !in group'
    ensures PairPrefix(head, app, group) <= PairPrefix(head, app', group') + rest <==> app == app' && group == group'
  {
    var p, k := PairPrefix(head, app, group), PairPrefix(head, app', group') + rest;
    if p <= k {
      var tail := k[|p|..];
      assert k == p + tail;
      KeyForm(head, app, group, tail);
      KeyForm(head, app', group', rest);
      assert k[|head|..] == Fields(app, group, tail) && k[|head|..] == Fields(app', group', rest);
      SameSplit(app, app', '.', group + (['.'] + tail), group' + (['.'] + rest));
      SameSplit(group, group', '.', tail, rest);
    }
  }

  // ----- ServiceInfos -----

  /** Metadata is kept as its stored text. */
  datatype ServiceInfo = ServiceInfo(app: string, group: string, ip: string, port: int, state: string,
      meta: Option<string>)

  function InfoOf(k: string, v: string, app: string, group: string, metas: map<string, string>): Option<ServiceInfo> {
    var e := ExtractAppInfo(k);
    if e.Instance? && e.port >= 0
    then Some(ServiceInfo(app, group, e.ip, e.port, v,
                          At(metas, PairPrefix(INSTANCE_META, app, group) + Address(e.ip, e.port))))
    else None
  }

  function Somes<T>(s: seq<Option<T>>): seq<T> {
    if s == [] then [] else Somes(s[..|s| - 1]) + (if s[|s| - 1].Some? then [s[|s| - 1].value] else [])
  }

  lemma {:induction false} SomesNext<T>(s: seq<Option<T>>, x: Option<T>)
    ensures Somes(s + [x]) == Somes(s) + (if x.Some? then [x.value] else [])
  {
    assert (s + [x])[..|s|] == s;
  }

  /** Every key of the set once, in some order. */
  ghost predicate Walks(keys: seq<string>, s: set<string>) {
    && (forall i, j :: 0 <= i < j < |keys| ==> keys[i] != keys[j])
    && (forall k :: k in keys <==> k in s)
  }

  /** What each key contributes. */
  ghost predicate Contributes(keys: seq<string>, infos: seq<Option<ServiceInfo>>, states: map<string, string>,
                              app: string, group: string, metas: map<string, string>)
  {
    |infos| == |keys| && forall i :: 0 <= i < |keys| ==>
      keys[i] in states && infos[i] == InfoOf(keys[i], states[keys[i]], app, group, metas)
  }

  /** The services come from the scanned keys, each walked once, in some order. */
  ghost predicate Listed(services: seq<ServiceInfo>, states: map<string, string>, app: string, group: string,
      metas: map<string, string>) {
    exists keys, infos :: Walks(keys, states.Keys) && Contributes(keys, infos, states, app, group, metas)
        && services == Somes(infos)
  }

  /** None if a key panics the parser; the map is walked in an arbitrary order. */
  method ServiceInfos(db: Db, app: string, group: string, t: int) returns (services: Option<seq<ServiceInfo>>)
    ensures var states := Scanned(db, PairPrefix(INSTANCE_INFO, app, group), t);
            var metas := Scanned(db, PairPrefix(INSTANCE_META, app, group), t);
            && (services == None <==> exists k :: k in states && ExtractAppInfo(k).Crash?)
            && (services.Some? ==> Listed(services.value, states, app, group, metas))
  {
    var states := ScanKvs(db, PairPrefix(INSTANCE_INFO, app, group), t);
    var metas := ScanKvs(db, PairPrefix(INSTANCE_META, app, group), t);
    services := ListServices(states, app, group, metas);
  }

  /** Its loop over the scanned states. */
  method ListServices(states: map<string, string>, app: string, group: string, metas: map<string, string>)
    returns (services: Option<seq<ServiceInfo>>)
    ensures services == None <==> exists k :: k in states && ExtractAppInfo(k).Crash?
    ensures services.Some? ==> Listed(services.value, states, app, group, metas)
  {
    hide ExtractAppInfo, InfoOf, Somes;
    var found: seq<ServiceInfo> := [];
    var rest := states.Keys;
    ghost var keys: seq<string> := [];
    ghost var infos: seq<Option<ServiceInfo>> := [];
    NoneYet();
    while rest != {}
      invariant rest <= states.Keys && Walks(keys, states.Keys - rest)
      invariant forall k :: k in keys ==> !ExtractAppInfo(k).Crash?
      invariant Contributes(keys, infos, states, app, group, metas) && found == Somes(infos)
      decreases rest
    {
      var k :| k in rest;
      if ExtractAppInfo(k).Crash? {
        return None;
      }
      var info := InfoOf(k, states[k], app, group, metas);
      WalksNext(keys, states.Keys - rest, k);
      SomesNext(infos, info);
      assert states.Keys - rest + {k} == states.Keys - (rest - {k});
      rest, keys, infos := rest - {k}, keys + [k], infos + [info];
      if info.Some? {
        found := found + [info.value];
      }
    }
    assert states.Keys - rest == states.Keys;
    services := Some(found);
  }

  lemma {:induction false} NoneYet()
    ensures Somes<ServiceInfo>([]) == []
  {
  }

  lemma {:induction false} WalksNext(keys: seq<string>, s: set<string>, k: string)
    requires Walks(keys, s) && k !in s
    ensures Walks(keys + [k], s + {k})
  {
  }

  /** Every stored instance key was printed from clean fields. */
  ghost predicate CleanInstances(db: Db) {
    forall k :: k in db && INSTANCE_INFO <= k ==>
      exists app, group, ip, port :: GoodPair(app, group) && GoodAddress(ip, port) && k == InstKey(app, group, ip, port)
  }

  lemma {:induction false} ScannedInstance(db: Db, app: string, group: string, t: int, k: string)
      returns (ip: string, port: nat)
    requires CleanInstances(db) && GoodPair(app, group) && k in Scanned(db, PairPrefix(INSTANCE_INFO, app, group), t)
    ensures GoodAddress(ip, port) && k == InstKey(app, group, ip, port)
        && ExtractAppInfo(k) == Instance(app, group, ip, port)
  {
    assert INSTANCE_INFO <= k;
    var app', group';
    app', group', ip, port :| GoodPair(app', group') && GoodAddress(ip, port) && k == InstKey(app', group', ip, port);
    PrefixSelects(INSTANCE_INFO, app, group, app', group', Address(ip, port));
    InstanceKeyExact(app, group, ip, port);
  }

  lemma {:induction false} SomesOnce(keys: seq<string>, infos: seq<Option<ServiceInfo>>, x: ServiceInfo, mine: string)
    requires |keys| == |infos| && forall i, j :: 0 <= i < j < |keys| ==> keys[i] != keys[j]
    requires forall i :: 0 <= i < |keys| ==> (infos[i] == Some(x) <==> keys[i] == mine)
    ensures multiset(Somes(infos))[x] == if mine in keys then 1 else 0
  {
    if keys != [] {
      var n := |keys| - 1;
      SomesOnce(keys[..n], infos[..n], x, mine);
      assert keys == keys[..n] + [keys[n]];
    }
  }

  /** A live instance's key contributes its own state and metadata, and no other
      key contributes the same. */
  lemma {:induction false} InfoIsMine(db: Db, app: string, group: string, t: int, k: string, s: ServiceInfo,
      mine: string)
    requires CleanInstances(db) && GoodPair(app, group) && k in Scanned(db, PairPrefix(INSTANCE_INFO, app, group), t)
    requires s.app == app && s.group == group && s.port >= 0 && GoodAddress(s.ip, s.port)
        && mine == InstKey(app, group, s.ip, s.port)
    requires s.meta == Shown(At(db, MetaKeyOf(app, group, s.ip, s.port)), t)
    requires Shown(At(db, mine), t) == Some(s.state)
    ensures var state := Scanned(db, PairPrefix(INSTANCE_INFO, app, group), t)[k];
            var metas := Scanned(db, PairPrefix(INSTANCE_META, app, group), t);
            InfoOf(k, state, app, group, metas) == Some(s) <==> k == mine
  {
    var metas := Scanned(db, PairPrefix(INSTANCE_META, app, group), t);
    var ip, port := ScannedInstance(db, app, group, t, k);
    MetaScanned(db, app, group, t, s.ip, s.port);
    if k == mine {
      InstanceKeyExact(app, group, s.ip, s.port);
    }
  }

  lemma {:induction false} MetaScanned(db: Db, app: string, group: string, t: int, ip: string, port: nat)
    ensures At(Scanned(db, PairPrefix(INSTANCE_META, app, group), t), MetaKeyOf(app, group, ip, port))
            == Shown(At(db, MetaKeyOf(app, group, ip, port)), t)
  {
    assert PairPrefix(INSTANCE_META, app, group) <= MetaKeyOf(app, group, ip, port);
  }

  /** With clean keys, listing never panics, and the services of an application and
      group are its live instances, each once, with its state and live metadata. */
  lemma {:induction false} ServicesAreLiveInstances(db: Db, app: string, group: string, t: int,
      services: seq<ServiceInfo>, s: ServiceInfo)
    requires CleanInstances(db) && GoodPair(app, group) && s.app == app && s.group == group && s.port >= 0
        && GoodAddress(s.ip, s.port)
    requires Listed(services, Scanned(db, PairPrefix(INSTANCE_INFO, app, group), t), app, group,
                    Scanned(db, PairPrefix(INSTANCE_META, app, group), t))
    ensures forall k :: k in Scanned(db, PairPrefix(INSTANCE_INFO, app, group), t) ==> !ExtractAppInfo(k).Crash?
    ensures multiset(services)[s] ==
            if Shown(At(db, InstKey(app, group, s.ip, s.port)), t) == Some(s.state)
               && s.meta == Shown(At(db, MetaKeyOf(app, group, s.ip, s.port)), t)
            then 1 else 0
  {
    hide ExtractAppInfo, InfoOf, Somes, InstKey, MetaKeyOf;
    var states := Scanned(db, PairPrefix(INSTANCE_INFO, app, group), t);
    var metas := Scanned(db, PairPrefix(INSTANCE_META, app, group), t);
    forall k | k in states ensures !ExtractAppInfo(k).Crash? {
      var _, _ := ScannedInstance(db, app, group, t, k);
    }
    var keys, infos :| Walks(keys, states.Keys) && Contributes(keys, infos, states, app, group, metas)
        && services == Somes(infos);
    var mine := InstKey(app, group, s.ip, s.port);
    InScan(db, app, group, t, s.ip, s.port);
    if Shown(At(db, mine), t) == Some(s.state) && s.meta == Shown(At(db, MetaKeyOf(app, group, s.ip, s.port)), t) {
      forall i | 0 <= i < |keys| ensures infos[i] == Some(s) <==> keys[i] == mine {
        assert keys[i] in keys;
        InfoIsMine(db, app, group, t, keys[i], s, mine);
      }
      SomesOnce(keys, infos, s, mine);
    } else {
      forall i | 0 <= i < |keys| ensures infos[i] != Some(s) {
        assert keys[i] in keys;
        NotListed(db, app, group, t, keys[i], s);
      }
      SomesNever(infos, s);
    }
  }

  lemma {:induction false} SomesNever<T>(infos: seq<Option<T>>, x: T)
    requires forall i :: 0 <= i < |infos| ==> infos[i] != Some(x)
    ensures multiset(Somes(infos))[x] == 0
  {
    if infos != [] {
      SomesNever(infos[..|infos| - 1], x);
    }
  }

  lemma {:induction false} InScan(db: Db, app: string, group: string, t: int, ip: string, port: nat)
    ensures InstKey(app, group, ip, port) in Scanned(db, PairPrefix(INSTANCE_INFO, app, group), t)
            <==> Shown(At(db, InstKey(app, group, ip, port)), t).Some?
  {
    assert PairPrefix(INSTANCE_INFO, app, group) <= InstKey(app, group, ip, port);
  }

  /** Nothing is listed with a state or metadata that is not the live one. */
  lemma {:induction false} NotListed(db: Db, app: string, group: string, t: int, k: string, s: ServiceInfo)
    requires CleanInstances(db) && GoodPair(app, group) && k in Scanned(db, PairPrefix(INSTANCE_INFO, app, group), t)
    requires s.app == app && s.group == group && s.port >= 0 && GoodAddress(s.ip, s.port)
    requires Shown(At(db, InstKey(app, group, s.ip, s.port)), t) == Some(s.state) ==>
               s.meta != Shown(At(db, MetaKeyOf(app, group, s.ip, s.port)), t)
    ensures InfoOf(k, Scanned(db, PairPrefix(INSTANCE_INFO, app, group), t)[k], app, group,
                   Scanned(db, PairPrefix(INSTANCE_META, app, group), t)) != Some(s)
  {
    var ip, port := ScannedInstance(db, app, group, t, k);
    MetaScanned(db, app, group, t, s.ip, s.port);
  }
}
