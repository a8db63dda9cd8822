/** The certificate index of the TLS listener: router/certificates.go. A certificate's matching is that of section 6.4.3
    of RFC 6125, with the wildcard as the whole left-most label. */
module Certificates {
  import opened Wrappers
  import opened Text

  type CertId = nat

  /** A key pair that loads, and the names its certificate carries. */
  type KeyPair = nat
  datatype Leaf = Leaf(cert: KeyPair, commonName: string, dnsNames: seq<string>)

  /** A stored document: its key pair and certificate load and parse, or they do not. */
  datatype Document = Loadable(leaf: Leaf) | Broken

  datatype Lookup = Found(document: Document) | NotFound | Failed(error: string)

  type Database = CertId -> Lookup

  // ---- Names

  function LowerChar(c: char): char {
    if 'A' <= c <= 'Z' then (c as int + 32) as char else c
  }

  function Lower(s: string): (r: string)
    ensures |r| == |s| && forall i | 0 <= i < |s| :: r[i] == LowerChar(s[i])
  {
    seq(|s|, i requires 0 <= i < |s| => LowerChar(s[i]))
  }

  function TrimDots(s: string): string {
    if s != "" && s[|s| - 1] == '.' then TrimDots(s[..|s| - 1]) else s
  }

  function Normal(serverName: string): string {
    TrimDots(Lower(serverName))
  }

  predicate Wildcard(name: string) {
    "*." <= name
  }

  /** The names of a certificate: the common name if there is one, then the alternative names. */
  function Names(leaf: Leaf): seq<string> {
    (if |leaf.commonName| > 0 then [leaf.commonName] else []) + leaf.dnsNames
  }

  /** The certificate carries this very name; a wildcard is no name. */
  predicate NamesExactly(leaf: Leaf, name: string) {
    !Wildcard(name) && name in Names(leaf)
  }

  /** The pattern is the name with its first label, which is not empty, replaced by a star. */
  ghost predicate Covers(pattern: string, name: string) {
    exists i :: 0 < i < |name| && name[i] == '.' && '.' !in name[..i] && pattern == "*" + name[i..]
  }

  ghost predicate NamesByWildcard(leaf: Leaf, name: string) {
    exists k :: 0 <= k < |Names(leaf)| && Covers(Names(leaf)[k], name)
  }

  // ---- The linear scan

  /** The certificates of the ids in the order of their first occurrence. */
  function Distinct(ids: seq<CertId>): seq<CertId> {
    if ids == [] then []
    else
      var d := Distinct(ids[..|ids| - 1]);
      if ids[|ids| - 1] in ids[..|ids| - 1] then d else d + [ids[|ids| - 1]]
  }

  function Documents(ids: seq<CertId>, db: Database): seq<Document> {
    if ids == [] then []
    else
      Documents(ids[..|ids| - 1], db) + (match db(ids[|ids| - 1]) case Found(d) => [d] case _ => [])
  }

  function Leaves(documents: seq<Document>): seq<Leaf> {
    if documents == [] then []
    else
      Leaves(documents[..|documents| - 1]) +
      (match documents[|documents| - 1] case Loadable(leaf) => [leaf] case Broken => [])
  }

  ghost function LastWhere(leaves: seq<Leaf>, p: Leaf -> bool): Option<KeyPair> {
    if leaves == [] then None
    else if p(leaves[|leaves| - 1]) then Some(leaves[|leaves| - 1].cert)
    else LastWhere(leaves[..|leaves| - 1], p)
  }

  /** The last certificate naming the server exactly, else the last one covering it, else the node's own. */
  ghost function Scan(leaves: seq<Leaf>, name: string, self: Option<KeyPair>): Option<KeyPair> {
    var exact := LastWhere(leaves, l => NamesExactly(l, name));
    var covering := LastWhere(leaves, l => NamesByWildcard(l, name));
    if exact.Some? then exact else if covering.Some? then covering else self
  }

  /** The first id whose lookup fails stops an update with its error. */
  function FirstFailure(ids: seq<CertId>, db: Database): Option<string> {
    if ids == [] then None
    else if FirstFailure(ids[..|ids| - 1], db).Some? then FirstFailure(ids[..|ids| - 1], db)
    else match db(ids[|ids| - 1]) case Failed(e) => Some(e) case _ => None
  }

  // ---- The maps

  datatype Index = Index(domains: map<string, KeyPair>, wildcards: map<string, KeyPair>)

  function Put(ix: Index, name: string, cert: KeyPair): Index {
    if Wildcard(name) then ix.(wildcards := ix.wildcards[name[2..] := cert])
    else ix.(domains := ix.domains[name := cert])
  }

  function PutAll(ix: Index, names: seq<string>, cert: KeyPair): Index {
    if names == [] then ix else Put(PutAll(ix, names[..|names| - 1], cert), names[|names| - 1], cert)
  }

  function IndexOf(leaves: seq<Leaf>): Index {
    if leaves == [] then Index(map[], map[])
    else PutAll(IndexOf(leaves[..|leaves| - 1]), Names(leaves[|leaves| - 1]), leaves[|leaves| - 1].cert)
  }

  function At(m: map<string, KeyPair>, k: string): Option<KeyPair> {
    if k in m then Some(m[k]) else None
  }

  /** What GetCertificate looks up. */
  function Answer(ix: Index, name: string, self: Option<KeyPair>): Option<KeyPair> {
    var i := Find(name, '.');
    if name in ix.domains then Some(ix.domains[name])
    else if 0 < i < |name| && name[i + 1..] in ix.wildcards then Some(ix.wildcards[name[i + 1..]])
    else self
  }

  lemma {:induction false} PutAllMeans(ix: Index, names: seq<string>, cert: KeyPair, key: string)
    ensures var after := PutAll(ix, names, cert);
      && At(after.domains, key) == (if !Wildcard(key) && key in names then Some(cert) else At(ix.domains, key))
      && At(after.wildcards, key) == (if "*." + key in names then Some(cert) else At(ix.wildcards, key))
  {
    if names != [] {
      var init, last := names[..|names| - 1], names[|names| - 1];
      PutAllMeans(ix, init, cert, key);
      assert key in names <==> key in init || key == last;
      assert "*." + key in names <==> "*." + key in init || "*." + key == last;
      assert Wildcard(last) ==> (last[2..] == key <==> last == "*." + key);
    }
  }

  predicate HasBase(leaf: Leaf, base: string) {
    "*." + base in Names(leaf)
  }

  /** The maps hold, for each name and each wildcard's base, the last certificate carrying it. */
  lemma {:induction false} IndexOfMeans(leaves: seq<Leaf>, key: string)
    ensures At(IndexOf(leaves).domains, key) == LastWhere(leaves, l => NamesExactly(l, key))
    ensures At(IndexOf(leaves).wildcards, key) == LastWhere(leaves, l => HasBase(l, key))
  {
    if leaves != [] {
      var init, last := leaves[..|leaves| - 1], leaves[|leaves| - 1];
      IndexOfMeans(init, key);
      PutAllMeans(IndexOf(init), Names(last), last.cert, key);
    }
  }

  lemma {:induction false} SameScan(leaves: seq<Leaf>, p: Leaf -> bool, q: Leaf -> bool)
    requires forall i | 0 <= i < |leaves| :: p(leaves[i]) == q(leaves[i])
    ensures LastWhere(leaves, p) == LastWhere(leaves, q)
  {
    if leaves != [] {
      SameScan(leaves[..|leaves| - 1], p, q);
    }
  }

  lemma {:induction false} NoScan(leaves: seq<Leaf>, p: Leaf -> bool)
    requires forall i | 0 <= i < |leaves| :: !p(leaves[i])
    ensures LastWhere(leaves, p) == None
  {
    if leaves != [] {
      NoScan(leaves[..|leaves| - 1], p);
    }
  }

  /** Covering is carrying the wildcard of the part behind the first dot. */
  lemma CoversBase(pattern: string, name: string)
    ensures var i := Find(name, '.');
      Covers(pattern, name) <==> 0 < i < |name| && pattern == "*." + name[i + 1..]
  {
    hide Find;
    var i := Find(name, '.');
    if Covers(pattern, name) {
      var j :| 0 < j < |name| && name[j] == '.' && '.' !in name[..j] && pattern == "*" + name[j..];
      FindFirst(name, '.', j);
      StarDot(name, i);
    }
    if 0 < i < |name| && pattern == "*." + name[i + 1..] {
      StarDot(name, i);
      assert pattern == "*" + name[i..];
    }
  }

  lemma StarDot(name: string, i: nat)
    requires i < |name| && name[i] == '.'
    ensures "*" + name[i..] == "*." + name[i + 1..]
  {
    var left, right := "*" + name[i..], "*." + name[i + 1..];
    forall k | 0 <= k < |left|
      ensures left[k] == right[k]
    {
      assert k > 1 ==> left[k] == name[i + k - 1] == right[k];
    }
  }

  /** The two lookups give what the scan gives. */
  lemma AnswerIsScan(leaves: seq<Leaf>, name: string, self: Option<KeyPair>)
    ensures Answer(IndexOf(leaves), name, self) == Scan(leaves, name, self)
  {
    hide IndexOf, Covers, LastWhere;
    IndexOfMeans(leaves, name);
    var i := Find(name, '.');
    var covering := l => NamesByWildcard(l, name);
    if 0 < i < |name| {
      var base := name[i + 1..];
      IndexOfMeans(leaves, base);
      forall k | 0 <= k < |leaves|
        ensures HasBase(leaves[k], base) == NamesByWildcard(leaves[k], name)
      {
        BaseIsCovering(leaves[k], name);
      }
      SameScan(leaves, l => HasBase(l, base), l => NamesByWildcard(l, name));
    } else {
      forall k | 0 <= k < |leaves|
        ensures !NamesByWildcard(leaves[k], name)
      {
        BaseIsCovering(leaves[k], name);
      }
      NoScan(leaves, l => NamesByWildcard(l, name));
    }
  }

  lemma BaseIsCovering(leaf: Leaf, name: string)
    ensures var i := Find(name, '.');
      NamesByWildcard(leaf, name) <==> 0 < i < |name| && HasBase(leaf, name[i + 1..])
  {
    hide Covers, Names;
    forall k | 0 <= k < |Names(leaf)|
      ensures var i := Find(name, '.');
        Covers(Names(leaf)[k], name) <==> 0 < i < |name| && Names(leaf)[k] == "*." + name[i + 1..]
    {
      CoversBase(Names(leaf)[k], name);
    }
  }

  // ---- Which names can be asked for

  lemma {:induction false} TrimDotsMeans(s: string)
    ensures TrimDots(s) <= s && (TrimDots(s) == "" || TrimDots(s)[|TrimDots(s)| - 1] != '.')
    ensures TrimDots(s) == s <==> s == "" || s[|s| - 1] != '.'
  {
    if s != "" && s[|s| - 1] == '.' {
      TrimDotsMeans(s[..|s| - 1]);
    }
  }

  /** Lower case and no trailing dot. */
  predicate Askable(name: string) {
    (forall i | 0 <= i < |name| :: !('A' <= name[i] <= 'Z')) && (name == "" || name[|name| - 1] != '.')
  }

  /** A name no server name can normalise to is never looked up: certificate names keep their case and their dots. */
  lemma AskedForIff(name: string)
    ensures (exists serverName :: Normal(serverName) == name) <==> Askable(name)
    ensures forall serverName :: Askable(Normal(serverName))
  {
    forall s: string
      ensures Askable(Normal(s))
    {
      TrimDotsMeans(Lower(s));
    }
    if Askable(name) {
      assert Lower(name) == name;
      TrimDotsMeans(name);
      assert Normal(name) == name;
    }
  }

  /** So an exact name in the index is served exactly when it is askable: the certificate of its entry, the last one
      carrying the name, is what some server name gets by that name, or no server name is looked up under it. */
  lemma ServedIff(leaves: seq<Leaf>, name: string)
    requires name in IndexOf(leaves).domains
    ensures (exists serverName :: Normal(serverName) == name) <==> Askable(name)
    ensures Askable(name) ==> forall self :: Scan(leaves, Normal(name), self) == Some(IndexOf(leaves).domains[name])
  {
    hide IndexOf, Scan, LastWhere;
    AskedForIff(name);
    if Askable(name) {
      assert Lower(name) == name;
      TrimDotsMeans(name);
      forall self
        ensures Scan(leaves, Normal(name), self) == Some(IndexOf(leaves).domains[name])
      {
        AnswerIsScan(leaves, name, self);
      }
    }
  }

  /** The name has a first label, and behind its dot the base. */
  predicate Under(name: string, base: string) {
    var i := Find(name, '.'); 0 < i < |name| && name[i + 1..] == base
  }

  /** A name under a base is askable only if the wildcard of the base is. */
  lemma UnderIsAskable(name: string, base: string)
    requires Under(name, base) && Askable(name)
    ensures Askable("*." + base)
  {
    var i, w := Find(name, '.'), "*." + base;
    hide Find;
    forall k | 0 <= k < |w|
      ensures !('A' <= w[k] <= 'Z')
    {
      assert k >= 2 ==> w[k] == base[k - 2] == name[i + k - 1];
    }
    assert base != "" ==> w[|w| - 1] == base[|base| - 1] == name[|name| - 1];
  }

  function Label(n: nat): (s: string)
    ensures |s| == n && forall i | 0 <= i < n :: s[i] == 'a'
  {
    seq(n, _ => 'a')
  }

  /** With any other label in front, such a name comes out of the normalisation as it is. */
  lemma LabelUnder(base: string, n: nat)
    requires n > 0 && Askable("*." + base)
    ensures var name := Label(n) + "." + base; Under(name, base) && Normal(name) == name
  {
    var name, w := Label(n) + "." + base, "*." + base;
    hide Find;
    forall k | 0 <= k < |name|
      ensures !('A' <= name[k] <= 'Z')
    {
      assert k > n ==> name[k] == w[k - n + 1];
    }
    assert name[|name| - 1] == w[|w| - 1];
    assert name[..n] == Label(n) && name[n] == '.' && name[n + 1..] == base;
    FindFirst(name, '.', n);
    assert Lower(name) == name;
    TrimDotsMeans(name);
  }

  /** No key is longer. */
  lemma {:induction false} KeysBound(keys: set<string>) returns (n: nat)
    ensures forall k | k in keys :: |k| <= n
    decreases keys
  {
    n := 0;
    if keys != {} {
      var k :| k in keys;
      var m := KeysBound(keys - {k});
      n := if |k| > m then |k| else m;
    }
  }

  /** And a wildcard in the index serves some server name exactly when it is askable, with the last certificate carrying
      it: a name whose label is longer than all exact names gets it, whatever the node's own certificate is. */
  lemma WildcardServedIff(leaves: seq<Leaf>, base: string)
    requires base in IndexOf(leaves).wildcards
    ensures (exists serverName :: Under(Normal(serverName), base)) <==> Askable("*." + base)
    ensures Askable("*." + base) ==>
      exists serverName :: (
        Under(Normal(serverName), base) &&
        forall self :: Scan(leaves, Normal(serverName), self) == Some(IndexOf(leaves).wildcards[base]))
  {
    hide IndexOf, Scan, Normal, Under, Askable;
    forall serverName | Under(Normal(serverName), base)
      ensures Askable("*." + base)
    {
      AskedForIff(Normal(serverName));
      UnderIsAskable(Normal(serverName), base);
    }
    if Askable("*." + base) {
      var n := KeysBound(IndexOf(leaves).domains.Keys);
      var name := Label(n + 1) + "." + base;
      LabelUnder(base, n + 1);
      forall self
        ensures Scan(leaves, Normal(name), self) == Some(IndexOf(leaves).wildcards[base])
      {
        AnswerIsScan(leaves, name, self);
        AnswerUnder(IndexOf(leaves), name, base, self);
      }
    }
  }

  lemma AnswerUnder(ix: Index, name: string, base: string, self: Option<KeyPair>)
    requires Under(name, base) && base in ix.wildcards && name !in ix.domains
    ensures Answer(ix, name, self) == Some(ix.wildcards[base])
  {
  }

  /** A certificate all of whose names are exact and none askable is served to nobody, unless as the node's own. */
  lemma NeverServed(leaves: seq<Leaf>, i: nat, serverName: string, self: Option<KeyPair>)
    requires i < |leaves| && (forall k | 0 <= k < |leaves| && k != i :: leaves[k].cert != leaves[i].cert)
    requires forall name | name in Names(leaves[i]) :: !Wildcard(name) && !Askable(name)
    requires self != Some(leaves[i].cert)
    ensures Scan(leaves, Normal(serverName), self) != Some(leaves[i].cert)
  {
    hide LastWhere, Names;
    var name := Normal(serverName);
    AskedForIff(name);
    assert !NamesExactly(leaves[i], name);
    assert !NamesByWildcard(leaves[i], name) by {
      forall k | 0 <= k < |Names(leaves[i])|
        ensures !Covers(Names(leaves[i])[k], name)
      {
        CoversBase(Names(leaves[i])[k], name);
        assert Names(leaves[i])[k] in Names(leaves[i]);
        StarIsWildcard(name[Find(name, '.')..]);
      }
    }
    LastIsWhere(leaves, l => NamesExactly(l, name));
    LastIsWhere(leaves, l => NamesByWildcard(l, name));
  }

  lemma StarIsWildcard(tail: string)
    ensures tail != "" && tail[0] == '.' ==> Wildcard("*" + tail)
  {
  }

  /** What a scan finds is the certificate of a leaf that has the property. */
  lemma {:induction false} LastIsWhere(leaves: seq<Leaf>, p: Leaf -> bool)
    ensures var r := LastWhere(leaves, p);
      r.Some? ==> exists i :: 0 <= i < |leaves| && p(leaves[i]) && r == Some(leaves[i].cert)
  {
    if leaves != [] {
      var n := |leaves| - 1;
      LastIsWhere(leaves[..n], p);
      if !p(leaves[n]) && LastWhere(leaves, p).Some? {
        var i :| 0 <= i < |leaves[..n]| && p(leaves[..n][i]) && LastWhere(leaves, p) == Some(leaves[..n][i].cert);
        assert leaves[i] == leaves[..n][i];
      }
    }
  }

  // ---- From the ids of a node to its maps

  /** The id is stored, loads, and its certificate fits. */
  predicate Bears(found: Lookup, p: Leaf -> bool) {
    found.Found? && found.document.Loadable? && p(found.document.leaf)
  }

  /** The last id to come up for the first time whose certificate fits. */
  ghost predicate LastBearer(ids: seq<CertId>, db: Database, p: Leaf -> bool, i: int) {
    && 0 <= i < |ids| && ids[i] !in ids[..i] && Bears(db(ids[i]), p)
    && forall j | i < j < |ids| && ids[j] !in ids[..j] :: !Bears(db(ids[j]), p)
  }

  lemma LeavesSnoc(documents: seq<Document>, d: Document)
    ensures Leaves(documents + [d]) == Leaves(documents) + (if d.Loadable? then [d.leaf] else [])
  {
    assert (documents + [d])[..|documents|] == documents;
  }

  lemma LastSnoc(leaves: seq<Leaf>, leaf: Leaf, p: Leaf -> bool)
    ensures LastWhere(leaves + [leaf], p) == if p(leaf) then Some(leaf.cert) else LastWhere(leaves, p)
  {
    assert (leaves + [leaf])[..|leaves|] == leaves;
  }

  /** One more id matters only if it comes up for the first time and its certificate fits. */
  lemma LastAdds(ids: seq<CertId>, x: CertId, db: Database, p: Leaf -> bool)
    ensures LastWhere(Leaves(Documents(Distinct(ids + [x]), db)), p) ==
      if x !in ids && Bears(db(x), p) then Some(db(x).document.leaf.cert)
      else LastWhere(Leaves(Documents(Distinct(ids), db)), p)
  {
    hide Distinct, Documents, Leaves, LastWhere;
    DistinctSnoc(ids, x);
    DocumentsSnoc(Distinct(ids), x, db);
    var documents := Documents(Distinct(ids), db);
    if x !in ids && db(x).Found? {
      LeavesSnoc(documents, db(x).document);
      if db(x).document.Loadable? {
        LastSnoc(Leaves(documents), db(x).document.leaf, p);
      } else {
        assert Leaves(documents) + [] == Leaves(documents);
      }
    } else {
      assert documents + [] == documents;
    }
  }

  lemma {:induction false} LastLoaded(ids: seq<CertId>, db: Database, p: Leaf -> bool)
    ensures var last := LastWhere(Leaves(Documents(Distinct(ids), db)), p);
      && (last.Some? ==> exists i :: LastBearer(ids, db, p, i) && db(ids[i]).document.leaf.cert == last.value)
      && (last.None? ==> forall i | 0 <= i < |ids| :: !Bears(db(ids[i]), p))
  {
    if ids != [] {
      var n := |ids| - 1;
      var init, x := ids[..n], ids[n];
      assert ids == init + [x];
      LastLoaded(init, db, p);
      LastAdds(init, x, db, p);
      hide LastWhere, Leaves, Documents, Distinct, Bears;
      if x !in init && Bears(db(x), p) {
        assert LastBearer(ids, db, p, n);
      } else if LastWhere(Leaves(Documents(Distinct(init), db)), p).Some? {
        var i :| LastBearer(init, db, p, i) && db(init[i]).document.leaf.cert ==
          LastWhere(Leaves(Documents(Distinct(init), db)), p).value;
        Lengthens(init, x, db, p, i);
      } else if x in init {
        var k :| 0 <= k < n && init[k] == x;
      }
    }
  }

  lemma Lengthens(ids: seq<CertId>, x: CertId, db: Database, p: Leaf -> bool, i: int)
    requires LastBearer(ids, db, p, i) && !(x !in ids && Bears(db(x), p))
    ensures LastBearer(ids + [x], db, p, i)
  {
    hide Bears;
    assert forall j | 0 <= j <= |ids| :: (ids + [x])[..j] == ids[..j];
    assert ids[..|ids|] == ids;
  }

  /** The entry for a name as certificates carry it: of a wildcard under its base, of any other under itself. */
  function Entry(ix: Index, name: string): Option<KeyPair> {
    if "*." <= name then At(ix.wildcards, name[2..]) else At(ix.domains, name)
  }

  ghost function Carries(name: string): Leaf -> bool {
    (l: Leaf) => (name == l.commonName && name != "") || name in l.dnsNames
  }

  /** The maps of an update, from the node's ids: there is an entry exactly for the names that some stored certificate
      carries that loads, as its common name or among its alternative names, and it is the certificate of the last such
      id, each id counted where it first comes up. */
  lemma UpdateMeans(ids: seq<CertId>, db: Database, name: string)
    ensures var entry := Entry(IndexOf(Leaves(Documents(Distinct(ids), db))), name);
      var p := Carries(name);
      && (entry.Some? ==> exists i :: LastBearer(ids, db, p, i) && db(ids[i]).document.leaf.cert == entry.value)
      && (entry.None? ==> forall i | 0 <= i < |ids| :: !Bears(db(ids[i]), p))
  {
    hide Leaves, Documents, Distinct, IndexOf, LastBearer, Bears, LastWhere;
    var p, leaves := Carries(name), Leaves(Documents(Distinct(ids), db));
    LastLoaded(ids, db, p);
    if "*." <= name {
      var base := name[2..];
      assert "*." + base == name;
      IndexOfMeans(leaves, base);
      SameScan(leaves, p, l => HasBase(l, base));
    } else {
      IndexOfMeans(leaves, name);
      SameScan(leaves, p, l => NamesExactly(l, name));
    }
  }

  /** An update fails with the error of the first id whose lookup fails, and with none if no lookup does. */
  lemma {:induction false} FailsFirst(ids: seq<CertId>, db: Database)
    ensures var err := FirstFailure(ids, db);
      && (err.Some? ==> exists i :: FailsAt(ids, db, i) && db(ids[i]) == Failed(err.value))
      && (err.None? ==> forall i | 0 <= i < |ids| :: !db(ids[i]).Failed?)
  {
    if ids != [] {
      var n := |ids| - 1;
      FailsFirst(ids[..n], db);
      if FirstFailure(ids[..n], db).Some? {
        var i :| FailsAt(ids[..n], db, i) && db(ids[..n][i]) == Failed(FirstFailure(ids[..n], db).value);
        assert forall j | 0 <= j < n :: ids[..n][j] == ids[j];
        assert FailsAt(ids, db, i);
      } else {
        assert forall j | 0 <= j < n :: ids[j] == ids[..n][j];
        assert db(ids[n]).Failed? ==> FailsAt(ids, db, n);
      }
    }
  }

  ghost predicate FailsAt(ids: seq<CertId>, db: Database, i: int) {
    0 <= i < |ids| && db(ids[i]).Failed? && forall j | 0 <= j < i :: !db(ids[j]).Failed?
  }

  // ---- The listener

  class Certificates {
    var selfCert: Option<KeyPair>
    var domainMap: map<string, KeyPair>
    var wildcardMap: map<string, KeyPair>

    constructor (selfCert: Option<KeyPair>)
      ensures this.selfCert == selfCert && View() == IndexOf([])
    {
      this.selfCert, domainMap, wildcardMap := selfCert, map[], map[];
    }

    function View(): Index
      reads this
    {
      Index(domainMap, wildcardMap)
    }

    method GetCertificate(serverName: string, ghost leaves: seq<Leaf>) returns (cert: Option<KeyPair>)
      requires View() == IndexOf(leaves)
      ensures cert == Scan(leaves, Normal(serverName), selfCert)
    {
      var name := Lower(serverName);
      while |name| > 0 && name[|name| - 1] == '.'
        invariant TrimDots(name) == Normal(serverName)
      {
        name := name[..|name| - 1];
      }
      AnswerIsScan(leaves, name, selfCert);
      cert := At(domainMap, name);
      if cert.None? {
        var index := Find(name, '.');
        if 0 < index < |name| {
          cert := At(wildcardMap, name[index + 1..]);
        }
      }
      if cert.None? {
        cert := selfCert;
      }
    }

    /** A failed lookup leaves the maps as they were; else they index the loadable certificates. */
    method Update(nodeCerts: seq<CertId>, db: Database) returns (err: Option<string>)
      modifies this`domainMap, this`wildcardMap
      ensures err == FirstFailure(nodeCerts, db)
      ensures View() == if err.Some? then old(View()) else IndexOf(Leaves(Documents(Distinct(nodeCerts), db)))
    {
      hide FirstFailure, Documents, Distinct, IndexOf, Leaves;
      var e, certificates := Load(nodeCerts, db);
      if e.Some? {
        return e;
      }
      var ix := Build(certificates);
      domainMap := ix.domains;
      wildcardMap := ix.wildcards;
      return None;
    }
  }

  /** The first half of an update: every id once, skipping those not found. */
  method Load(nodeCerts: seq<CertId>, db: Database) returns (err: Option<string>, certificates: seq<Document>)
    ensures err == FirstFailure(nodeCerts, db)
    ensures err.None? ==> certificates == Documents(Distinct(nodeCerts), db)
  {
    hide FirstFailure, Documents, Distinct;
    var loaded: set<CertId> := {};
    certificates := [];
    LoadNone(db);
    assert nodeCerts[..0] == [] && nodeCerts[..|nodeCerts|] == nodeCerts;
    for i := 0 to |nodeCerts|
      invariant forall x :: x in loaded <==> x in nodeCerts[..i]
      invariant FirstFailure(nodeCerts[..i], db) == None
      invariant certificates == Documents(Distinct(nodeCerts[..i]), db)
    {
      var certId := nodeCerts[i];
      LoadStep(nodeCerts, i, db);
      if certId in loaded {
        continue;
      }
      loaded := loaded + {certId};
      var found := db(certId);
      if found.Failed? {
        return Some(found.error), [];
      }
      if found.Found? {
        certificates := certificates + [found.document];
      }
    }
    return None, certificates;
  }

  lemma LoadNone(db: Database)
    ensures FirstFailure([], db) == None && Documents(Distinct([]), db) == []
  {
  }

  lemma LoadStep(ids: seq<CertId>, i: nat, db: Database)
    requires i < |ids| && FirstFailure(ids[..i], db) == None
    ensures forall x :: x in ids[..i + 1] <==> x in ids[..i] || x == ids[i]
    ensures db(ids[i]).Failed? ==> ids[i] !in ids[..i] && FirstFailure(ids, db) == Some(db(ids[i]).error)
    ensures !db(ids[i]).Failed? ==> FirstFailure(ids[..i + 1], db) == None
    ensures var before, after := Documents(Distinct(ids[..i]), db), Documents(Distinct(ids[..i + 1]), db);
      after == if ids[i] !in ids[..i] && db(ids[i]).Found? then before + [db(ids[i]).document] else before
  {
    hide Distinct, Documents, FirstFailure;
    assert ids[..i + 1] == ids[..i] + [ids[i]];
    DistinctSnoc(ids[..i], ids[i]);
    DocumentsSnoc(Distinct(ids[..i]), ids[i], db);
    FailureSnoc(ids[..i], ids[i], db);
    if db(ids[i]).Failed? {
      FailureStays(ids, i + 1, db);
      if ids[i] in ids[..i] {
        NoFailure(ids[..i], ids[i], db);
      }
    }
  }

  lemma DistinctSnoc(ids: seq<CertId>, x: CertId)
    ensures Distinct(ids + [x]) == if x in ids then Distinct(ids) else Distinct(ids) + [x]
  {
    assert (ids + [x])[..|ids|] == ids;
  }

  lemma DocumentsSnoc(ids: seq<CertId>, x: CertId, db: Database)
    ensures Documents(ids + [x], db) == Documents(ids, db) + (if db(x).Found? then [db(x).document] else [])
  {
    assert (ids + [x])[..|ids|] == ids;
  }

  lemma FailureSnoc(ids: seq<CertId>, x: CertId, db: Database)
    requires FirstFailure(ids, db) == None
    ensures FirstFailure(ids + [x], db) == if db(x).Failed? then Some(db(x).error) else None
  {
    assert (ids + [x])[..|ids|] == ids;
  }

  /** The second half: the maps, without the certificates that do not load. */
  method Build(certificates: seq<Document>) returns (ix: Index)
    ensures ix == IndexOf(Leaves(certificates))
  {
    hide PutAll, Names;
    ix := Index(map[], map[]);
    assert certificates[..|certificates|] == certificates;
    for i := 0 to |certificates|
      invariant ix == IndexOf(Leaves(certificates[..i]))
    {
      assert certificates[..i + 1][..i] == certificates[..i];
      ghost var before := Leaves(certificates[..i]);
      if certificates[i].Broken? {
        assert Leaves(certificates[..i + 1]) == before + [] == before;
        continue;
      }
      assert Leaves(certificates[..i + 1]) == before + [certificates[i].leaf];
      ix := PutNames(ix, certificates[i].leaf);
      assert (before + [certificates[i].leaf])[..|before|] == before;
    }
  }

  /** The common name and the alternative names of one certificate. */
  method PutNames(ix: Index, leaf: Leaf) returns (r: Index)
    ensures r == PutAll(ix, Names(leaf), leaf.cert)
  {
    hide Put, PutAll;
    r := ix;
    ghost var first := if |leaf.commonName| > 0 then [leaf.commonName] else [];
    PutNone(ix, leaf.cert);
    if |leaf.commonName| > 0 {
      r := PutName(r, leaf.commonName, leaf.cert);
      PutSnoc(ix, [], leaf.commonName, leaf.cert);
      assert [] + [leaf.commonName] == first;
    }
    assert first + leaf.dnsNames[..0] == first;
    for i := 0 to |leaf.dnsNames|
      invariant r == PutAll(ix, first + leaf.dnsNames[..i], leaf.cert)
    {
      r := PutName(r, leaf.dnsNames[i], leaf.cert);
      PutSnoc(ix, first + leaf.dnsNames[..i], leaf.dnsNames[i], leaf.cert);
      TakeMore(first, leaf.dnsNames, i);
    }
    assert leaf.dnsNames[..|leaf.dnsNames|] == leaf.dnsNames;
  }

  /** One name, into the map of its kind. */
  method PutName(ix: Index, name: string, cert: KeyPair) returns (r: Index)
    ensures r == Put(ix, name, cert)
    ensures forall key ::
      At(r.domains, key) == if key == name && !Wildcard(name) then Some(cert) else At(ix.domains, key)
    ensures forall key :: At(r.wildcards, key) == if "*." + key == name then Some(cert) else At(ix.wildcards, key)
  {
    assert Wildcard(name) ==> forall key: string :: name[2..] == key <==> "*." + key == name by {
      StarBase(name);
    }
    if "*." <= name {
      var base := name[2..];
      r := ix.(wildcards := ix.wildcards[base := cert]);
    } else {
      r := ix.(domains := ix.domains[name := cert]);
    }
  }

  lemma TakeMore(first: seq<string>, names: seq<string>, i: nat)
    requires i < |names|
    ensures first + names[..i] + [names[i]] == first + names[..i + 1]
  {
  }

  lemma StarBase(name: string)
    ensures Wildcard(name) ==> forall key: string :: name[2..] == key <==> "*." + key == name
  {
    assert Wildcard(name) ==> name == "*." + name[2..];
    assert forall key: string :: ("*." + key)[2..] == key;
  }

  lemma PutNone(ix: Index, cert: KeyPair)
    ensures PutAll(ix, [], cert) == ix
  {
  }

  lemma PutSnoc(ix: Index, names: seq<string>, name: string, cert: KeyPair)
    ensures PutAll(ix, names + [name], cert) == Put(PutAll(ix, names, cert), name, cert)
  {
    hide Put;
    assert (names + [name])[..|names|] == names;
  }

  lemma {:induction false} NoFailure(ids: seq<CertId>, x: CertId, db: Database)
    requires FirstFailure(ids, db) == None && x in ids
    ensures !db(x).Failed?
  {
    if x != ids[|ids| - 1] {
      assert x in ids[..|ids| - 1];
      NoFailure(ids[..|ids| - 1], x, db);
    }
  }

  lemma {:induction false} FailureStays(ids: seq<CertId>, n: nat, db: Database)
    requires n <= |ids| && FirstFailure(ids[..n], db).Some?
    ensures FirstFailure(ids, db) == FirstFailure(ids[..n], db)
  {
    if n < |ids| {
      assert ids[..|ids| - 1][..n] == ids[..n];
      FailureStays(ids[..|ids| - 1], n, db);
    } else {
      assert ids[..n] == ids;
    }
  }

  /** Where an id first occurs. */
  function FirstAt(ids: seq<CertId>, x: CertId): nat {
    if ids == [] then 0
    else if x in ids[..|ids| - 1] then FirstAt(ids[..|ids| - 1], x)
    else |ids| - 1
  }

  lemma {:induction false} FirstAtMeans(ids: seq<CertId>, x: CertId)
    requires x in ids
    ensures FirstAt(ids, x) < |ids| && ids[FirstAt(ids, x)] == x && x !in ids[..FirstAt(ids, x)]
  {
    var init := ids[..|ids| - 1];
    if x in init {
      FirstAtMeans(init, x);
      assert ids[..FirstAt(init, x)] == init[..FirstAt(init, x)];
    }
  }

  lemma {:induction false} DistinctMembers(ids: seq<CertId>, x: CertId)
    ensures x in Distinct(ids) <==> x in ids
  {
    if ids != [] {
      DistinctMembers(ids[..|ids| - 1], x);
    }
  }

  /** Each id once, in the order of the first occurrences. */
  lemma {:induction false} DistinctMeans(ids: seq<CertId>)
    ensures forall x :: x in Distinct(ids) <==> x in ids
    ensures forall x | x in ids :: FirstAt(ids, x) < |ids| && ids[FirstAt(ids, x)] == x && x !in ids[..FirstAt(ids, x)]
    ensures forall i, j | 0 <= i < j < |Distinct(ids)| ::
      FirstAt(ids, Distinct(ids)[i]) < FirstAt(ids, Distinct(ids)[j])
  {
    forall x
      ensures x in Distinct(ids) <==> x in ids
    {
      DistinctMembers(ids, x);
    }
    forall x | x in ids
      ensures FirstAt(ids, x) < |ids| && ids[FirstAt(ids, x)] == x && x !in ids[..FirstAt(ids, x)]
    {
      FirstAtMeans(ids, x);
    }
    DistinctInOrder(ids);
  }

  lemma {:induction false} DistinctInOrder(ids: seq<CertId>)
    ensures forall i, j | 0 <= i < j < |Distinct(ids)| ::
      FirstAt(ids, Distinct(ids)[i]) < FirstAt(ids, Distinct(ids)[j])
  {
    if ids != [] {
      var n := |ids| - 1;
      var init, last := ids[..n], ids[n];
      var d := Distinct(init);
      DistinctInOrder(init);
      forall i | 0 <= i < |d|
        ensures FirstAt(ids, d[i]) == FirstAt(init, d[i]) < n
      {
        DistinctMembers(init, d[i]);
        FirstAtMeans(init, d[i]);
      }
      assert Distinct(ids) == if last in init then d else d + [last];
      assert last !in init ==> FirstAt(ids, last) == n;
      hide Distinct, FirstAt;
    }
  }
}
