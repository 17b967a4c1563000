/**
  The key layouts of the key-value store (common/key_value/key_builder): every key constructor, the
  big-endian consumption keys and their parser.
 */
module KeyBuilder {
  import opened Basics

  type Int64 = t: int | MIN_INT64 <= t <= MAX_INT64

  // ----- prefixes (prefix.go) -----

  const VERSION: Byte := 118        // 'v'
  const RECORD: Byte := 114         // 'r'
  const QR_CODE: Byte := 113        // 'q'
  const TAG_CATEGORY: Byte := 99    // 'c'
  const TAG: Byte := 116            // 't'
  const COLLECTION: Byte := 108     // 'l'
  const USER: Byte := 117           // 'u'
  const NOTIFICATION: Byte := 111   // 'o'
  const DEVICE: Byte := 100         // 'd'
  const RECORD_NAME_INDEX: Byte := 110 // 'n'

  const INDEX: Byte := 105          // 'i', the first byte of all two-byte prefixes
  const TAG_CATEGORY_INDEX_NAME: Bytes := [INDEX, 99]       // "ic"
  const TAG_INDEX_CATEGORY_NAME: Bytes := [INDEX, 116]      // "it"
  const TAG_INDEX_NAME: Bytes := [INDEX, 110]               // "in"
  const TAG_INDEX_TEA: Bytes := [INDEX, 97]                 // "ia"
  const TEA_INDEX_TAG: Bytes := [INDEX, 98]                 // "ib"
  const COLLECTION_INDEX_TEA: Bytes := [INDEX, 108]         // "il"
  const USER_INDEX_APPLE_ID: Bytes := [INDEX, 105]          // "ii"
  const USER_INDEX_NOTIFICATIONS: Bytes := [INDEX, 117]     // "iu"
  const USER_INDEX_DEVICES: Bytes := [INDEX, 100]           // "id"
  const USER_INDEX_CONSUMPTION: Bytes := [INDEX, 120]       // "ix"

  // ----- big-endian words -----

  function Pow256(w: nat): nat {
    if w == 0 then 1 else 256 * Pow256(w - 1)
  }

  /** The low w bytes of u, most significant first. */
  function BigEndian(u: nat, w: nat): (b: Bytes)
    ensures |b| == w
  {
    if w == 0 then [] else BigEndian(u / 256, w - 1) + [u % 256]
  }

  function Value(b: Bytes): nat {
    if b == [] then 0 else 256 * Value(b[..|b| - 1]) + b[|b| - 1]
  }

  lemma {:induction false} ValueOfBigEndian(u: nat, w: nat)
    requires u < Pow256(w)
    ensures Value(BigEndian(u, w)) == u
  {
    if w > 0 {
      ValueOfBigEndian(u / 256, w - 1);
      assert BigEndian(u, w)[..w - 1] == BigEndian(u / 256, w - 1);
    }
  }

  lemma {:induction false} BigEndianOfValue(b: Bytes)
    ensures Value(b) < Pow256(|b|)
    ensures BigEndian(Value(b), |b|) == b
  {
    if b != [] {
      var init := b[..|b| - 1];
      BigEndianOfValue(init);
      assert Value(b) / 256 == Value(init) && Value(b) % 256 == b[|b| - 1];
      assert b == init + [b[|b| - 1]];
    }
  }

  /** Words of one width compare as the numbers they stand for. */
  lemma {:induction false} LexIsValueOrder(a: Bytes, b: Bytes)
    requires |a| == |b|
    ensures LexLess(a, b) <==> Value(a) < Value(b)
    ensures a == b <==> Value(a) == Value(b)
  {
    BigEndianOfValue(a);
    BigEndianOfValue(b);
    if a != [] {
      var ai, bi, x, y := a[..|a| - 1], b[..|b| - 1], a[|a| - 1], b[|b| - 1];
      LexIsValueOrder(ai, bi);
      LexConcat(ai, bi, [x], [y]);
      assert a == ai + [x] && b == bi + [y];
      assert LexLess([x], [y]) <==> x < y by {
        assert !LexLess([x][1..], [y][1..]);
      }
    }
  }

  lemma InitValue(b: Bytes, n: nat)
    requires n < |b|
    ensures Value(b[..n + 1]) == 256 * Value(b[..n]) + b[n]
  {
    assert b[..n + 1][..n] == b[..n];
  }

  lemma ValueOfFour(b: Bytes)
    requires |b| >= 4
    ensures Value(b[..4]) == 0x100_0000 * (b[0] as int) + 0x1_0000 * (b[1] as int) + 0x100 * (b[2] as int) + b[3]
  {
    InitValue(b, 0);
    InitValue(b, 1);
    InitValue(b, 2);
    InitValue(b, 3);
  }

  /** An eight-byte word, byte by byte. */
  lemma ValueOfEight(b: Bytes)
    requires |b| == 8
    ensures Value(b) == 0x100_0000_0000_0000 * (b[0] as int) + 0x1_0000_0000_0000 * (b[1] as int) + 0x100_0000_0000 * (b[2] as int) + 0x1_0000_0000 * (b[3] as int)
                        + 0x100_0000 * (b[4] as int) + 0x1_0000 * (b[5] as int) + 0x100 * (b[6] as int) + b[7]
  {
    ValueOfFour(b);
    InitValue(b, 4);
    InitValue(b, 5);
    InitValue(b, 6);
    InitValue(b, 7);
    assert b[..8] == b;
  }

  lemma EightBytes()
    ensures Pow256(8) == 0x1_0000_0000_0000_0000
  {
    assert Pow256(4) == 0x1_0000_0000;
  }

  /** The conversion of an int64 to uint64. */
  function AsUint64(t: Int64): nat {
    if t < 0 then t + 0x1_0000_0000_0000_0000 else t
  }

  // ----- the constructors (builder.go) -----

  /** make, then a copying loop. */
  method AppendPrefix(prefix: Byte, data: Bytes) returns (res: array<Byte>)
    ensures fresh(res) && res[..] == Prefixed(prefix, data)
  {
    res := new Byte[|data| + 1];
    res[0] := prefix;
    for i := 1 to |data| + 1
      invariant res[0] == prefix
      invariant res[1..i] == data[..i - 1]
    {
      res[i] := data[i - 1];
    }
    assert res[..] == [res[0]] + res[1..|data| + 1];
    assert data[..|data|] == data;
  }

  function Prefixed(prefix: Byte, data: Bytes): Bytes {
    [prefix] + data
  }

  function Version(): Bytes { [VERSION] }
  function Records(): Bytes { [RECORD] }
  function Record(id: Uuid): Bytes { Prefixed(RECORD, id.bytes) }
  function RecordsByName(name: Bytes): Bytes { Prefixed(RECORD_NAME_INDEX, name) }
  function QR(id: Uuid): Bytes { Prefixed(QR_CODE, id.bytes) }
  function TagCategories(): Bytes { [TAG_CATEGORY] }
  function TagCategory(id: Uuid): Bytes { Prefixed(TAG_CATEGORY, id.bytes) }
  function TagCategoryByName(name: Bytes): Bytes { TAG_CATEGORY_INDEX_NAME + name }
  function Tags(): Bytes { [TAG] }
  function Tag(id: Uuid): Bytes { Prefixed(TAG, id.bytes) }
  function TagsByName(name: Bytes): Bytes { TAG_INDEX_NAME + name }
  function TagsByNameAndCategory(category: Uuid, name: Bytes): Bytes { TAG_INDEX_CATEGORY_NAME + (category.bytes + name) }
  function TagsByCategory(category: Uuid): Bytes { TAG_INDEX_CATEGORY_NAME + category.bytes }
  function TagsByTea(tea: Uuid): Bytes { TEA_INDEX_TAG + tea.bytes }
  function TeasByTag(tag: Uuid): Bytes { TAG_INDEX_TEA + tag.bytes }
  function TagTeaPair(tag: Uuid, tea: Uuid): Bytes { TAG_INDEX_TEA + (tag.bytes + tea.bytes) }
  function TeaTagPair(tea: Uuid, tag: Uuid): Bytes { TEA_INDEX_TAG + (tea.bytes + tag.bytes) }
  function Collection(id: Uuid, user: Uuid): Bytes { Prefixed(COLLECTION, user.bytes) + id.bytes }
  function UserCollections(user: Uuid): Bytes { Prefixed(COLLECTION, user.bytes) }
  function CollectionsTeas(id: Uuid, tea: Uuid): Bytes { COLLECTION_INDEX_TEA + (id.bytes + tea.bytes) }
  function RecordsByCollection(id: Uuid): Bytes { COLLECTION_INDEX_TEA + id.bytes }
  function Users(): Bytes { [USER] }
  function User(id: Uuid): Bytes { Prefixed(USER, id.bytes) }
  function UserByAppleID(id: Bytes): Bytes { USER_INDEX_APPLE_ID + id }
  function Device(id: Uuid): Bytes { Prefixed(DEVICE, id.bytes) }
  function DevicesByUserID(id: Uuid): Bytes { USER_INDEX_DEVICES + id.bytes }
  function Notification(id: Uuid): Bytes { Prefixed(NOTIFICATION, id.bytes) }
  function NotificationByUserID(id: Uuid): Bytes { USER_INDEX_NOTIFICATIONS + id.bytes }
  function ConsumptionByUserID(user: Uuid): Bytes { USER_INDEX_CONSUMPTION + user.bytes }

  function ConsumptionKey(user: Uuid, ts: Int64, tea: Uuid): Bytes {
    ConsumptionByUserID(user) + BigEndian(AsUint64(ts), 8) + tea.bytes
  }

  // ----- the consumption key -----

  /**
    Keys of one user compare by time and then tea among times of one sign; times before the epoch
    come after all others. So a prefix scan is chronological exactly if no time, or every time,
    is before the epoch.
   */
  lemma ConsumptionKeyOrder(user: Uuid, s: Int64, a: Uuid, t: Int64, b: Uuid)
    ensures LexLess(ConsumptionKey(user, s, a), ConsumptionKey(user, t, b))
       <==> if (s < 0) == (t < 0) then s < t || (s == t && LexLess(a.bytes, b.bytes)) else t < 0
  {
    var p, x, y := ConsumptionByUserID(user), BigEndian(AsUint64(s), 8), BigEndian(AsUint64(t), 8);
    EightBytes();
    ValueOfBigEndian(AsUint64(s), 8);
    ValueOfBigEndian(AsUint64(t), 8);
    LexIsValueOrder(x, y);
    LexTotal(p, p);
    LexConcat(p, p, x + a.bytes, y + b.bytes);
    LexConcat(x, y, a.bytes, b.bytes);
    assert p + x + a.bytes == p + (x + a.bytes) && p + y + b.bytes == p + (y + b.bytes);
  }

  const UUID_SIZE := 16
  const TIMESTAMP_SIZE := 8

  /** The key starts with prefix and has room for a time and an id. */
  predicate Parsable(prefix: Bytes, key: Bytes) {
    prefix <= key && |key| >= |prefix| + TIMESTAMP_SIZE + UUID_SIZE
  }

  /** The time word of a parsable key, as an unsigned number. */
  function Word(prefix: Bytes, key: Bytes): nat
    requires Parsable(prefix, key)
  {
    Value(key[|prefix|..|prefix| + TIMESTAMP_SIZE])
  }

  function TeaIn(prefix: Bytes, key: Bytes): Uuid
    requires Parsable(prefix, key)
  {
    Uuid(key[|prefix| + TIMESTAMP_SIZE..|prefix| + TIMESTAMP_SIZE + UUID_SIZE])
  }

  function Clamped(u: nat): Int64 {
    if u > MAX_INT64 then MAX_INT64 else u
  }

  /** Accepts exactly the parsable keys; the time is clamped, and bytes beyond the id are ignored. */
  method ParseConsumptionKey(prefix: Bytes, key: Bytes) returns (r: Option<(Int64, Uuid)>)
    ensures r == if Parsable(prefix, key) then Some((Clamped(Word(prefix, key)), TeaIn(prefix, key))) else None
    ensures r.Some? <==> |key| >= |prefix| + 8 + 16 && key[..|prefix|] == prefix
    ensures r.Some? ==> r.value.1.bytes == key[|prefix| + 8..|prefix| + 24]
    ensures r.Some? ==> var u := Value(key[|prefix|..|prefix| + 8]); r.value.0 == if u > 0x7FFF_FFFF_FFFF_FFFF then 0x7FFF_FFFF_FFFF_FFFF else u
  {
    var need := |prefix| + TIMESTAMP_SIZE + UUID_SIZE;
    if |key| < need {
      return None;
    }
    for i := 0 to |prefix|
      invariant key[..i] == prefix[..i]
    {
      if key[i] != prefix[i] {
        return None;
      }
    }
    assert prefix[..|prefix|] == prefix;
    var u := Value(key[|prefix|..|prefix| + TIMESTAMP_SIZE]);
    if u > MAX_INT64 {
      u := MAX_INT64;
    }
    return Some((u, Uuid(key[|prefix| + TIMESTAMP_SIZE..need])));
  }

  /** Parsing a built key gives its time and tea back exactly for times not before the epoch. */
  lemma ParseOfBuilt(user: Uuid, ts: Int64, tea: Uuid)
    ensures var p, key := ConsumptionByUserID(user), ConsumptionKey(user, ts, tea);
            && Parsable(p, key) && |key| == |p| + TIMESTAMP_SIZE + UUID_SIZE
            && TeaIn(p, key) == tea && Word(p, key) == AsUint64(ts)
            && (Clamped(Word(p, key)) == ts <==> ts >= 0)
  {
    var p, key := ConsumptionByUserID(user), ConsumptionKey(user, ts, tea);
    EightBytes();
    ValueOfBigEndian(AsUint64(ts), 8);
    assert key[|p|..|p| + TIMESTAMP_SIZE] == BigEndian(AsUint64(ts), 8);
    assert key[|p| + TIMESTAMP_SIZE..|p| + TIMESTAMP_SIZE + UUID_SIZE] == tea.bytes;
  }

  /** Building from a parsed key gives that key back exactly if it has no extra bytes and its word needed no clamping. */
  lemma BuiltOfParse(user: Uuid, key: Bytes)
    requires Parsable(ConsumptionByUserID(user), key)
    ensures var p := ConsumptionByUserID(user);
            ConsumptionKey(user, Clamped(Word(p, key)), TeaIn(p, key)) == key
            <==> |key| == |p| + TIMESTAMP_SIZE + UUID_SIZE && Word(p, key) <= MAX_INT64
  {
    var p := ConsumptionByUserID(user);
    var word := key[|p|..|p| + TIMESTAMP_SIZE];
    var tea := TeaIn(p, key);
    ParseOfBuilt(user, Clamped(Word(p, key)), tea);
    if |key| == |p| + TIMESTAMP_SIZE + UUID_SIZE && Word(p, key) <= MAX_INT64 {
      BigEndianOfValue(word);
      assert key == p + word + tea.bytes;
    }
  }

  // ----- the whole keyspace -----

  /** Every full key, by kind and arguments. */
  datatype Key =
    | VersionKey
    | RecordKey(id: Uuid)
    | RecordNameKey(name: Bytes)
    | QRKey(id: Uuid)
    | TagCategoryKey(id: Uuid)
    | TagCategoryNameKey(name: Bytes)
    | TagKey(id: Uuid)
    | TagNameKey(name: Bytes)
    | CategoryTagNameKey(category: Uuid, name: Bytes)
    | TagTeaKey(tag: Uuid, tea: Uuid)
    | TeaTagKey(tea: Uuid, tag: Uuid)
    | CollectionKey(id: Uuid, user: Uuid)
    | CollectionTeaKey(id: Uuid, tea: Uuid)
    | UserKey(id: Uuid)
    | AppleIDKey(appleId: Bytes)
    | DeviceKey(id: Uuid)
    | UserDevicesKey(user: Uuid)
    | NotificationKey(id: Uuid)
    | UserNotificationsKey(user: Uuid)
    | ConsumedKey(user: Uuid, ts: Int64, tea: Uuid)

  function Encode(k: Key): Bytes {
    match k
    case VersionKey => Version()
    case RecordKey(id) => Record(id)
    case RecordNameKey(name) => RecordsByName(name)
    case QRKey(id) => QR(id)
    case TagCategoryKey(id) => TagCategory(id)
    case TagCategoryNameKey(name) => TagCategoryByName(name)
    case TagKey(id) => Tag(id)
    case TagNameKey(name) => TagsByName(name)
    case CategoryTagNameKey(category, name) => TagsByNameAndCategory(category, name)
    case TagTeaKey(tag, tea) => TagTeaPair(tag, tea)
    case TeaTagKey(tea, tag) => TeaTagPair(tea, tag)
    case CollectionKey(id, user) => Collection(id, user)
    case CollectionTeaKey(id, tea) => CollectionsTeas(id, tea)
    case UserKey(id) => User(id)
    case AppleIDKey(appleId) => UserByAppleID(appleId)
    case DeviceKey(id) => Device(id)
    case UserDevicesKey(user) => DevicesByUserID(user)
    case NotificationKey(id) => Notification(id)
    case UserNotificationsKey(user) => NotificationByUserID(user)
    case ConsumedKey(user, ts, tea) => ConsumptionKey(user, ts, tea)
  }

  /** Every prefix a range read uses; the name scans take the beginning of a name. */
  datatype Scan =
    | AllRecords
    | AllTagCategories
    | AllTags
    | AllUsers
    | RecordNames(prefix: Bytes)
    | TagCategoryNames(prefix: Bytes)
    | TagNames(prefix: Bytes)
    | CategoryTagNames(category: Uuid, prefix: Bytes)
    | TagsOfCategory(category: Uuid)
    | TagsOfTea(tea: Uuid)
    | TeasOfTag(tag: Uuid)
    | CollectionsOfUser(user: Uuid)
    | TeasOfCollection(id: Uuid)
    | ConsumptionsOfUser(user: Uuid)

  function ScanPrefix(s: Scan): Bytes {
    match s
    case AllRecords => Records()
    case AllTagCategories => TagCategories()
    case AllTags => Tags()
    case AllUsers => Users()
    case RecordNames(p) => RecordsByName(p)
    case TagCategoryNames(p) => TagCategoryByName(p)
    case TagNames(p) => TagsByName(p)
    case CategoryTagNames(category, p) => TagsByNameAndCategory(category, p)
    case TagsOfCategory(category) => TagsByCategory(category)
    case TagsOfTea(tea) => TagsByTea(tea)
    case TeasOfTag(tag) => TeasByTag(tag)
    case CollectionsOfUser(user) => UserCollections(user)
    case TeasOfCollection(id) => RecordsByCollection(id)
    case ConsumptionsOfUser(user) => ConsumptionByUserID(user)
  }

  /** The keys a scan is meant to find: those of its kind built with its argument. */
  predicate Wanted(s: Scan, k: Key) {
    match s
    case AllRecords => k.RecordKey?
    case AllTagCategories => k.TagCategoryKey?
    case AllTags => k.TagKey?
    case AllUsers => k.UserKey?
    case RecordNames(p) => k.RecordNameKey? && p <= k.name
    case TagCategoryNames(p) => k.TagCategoryNameKey? && p <= k.name
    case TagNames(p) => k.TagNameKey? && p <= k.name
    case CategoryTagNames(category, p) => k.CategoryTagNameKey? && k.category == category && p <= k.name
    case TagsOfCategory(category) => k.CategoryTagNameKey? && k.category == category
    case TagsOfTea(tea) => k.TeaTagKey? && k.tea == tea
    case TeasOfTag(tag) => k.TagTeaKey? && k.tag == tag
    case CollectionsOfUser(user) => k.CollectionKey? && k.user == user
    case TeasOfCollection(id) => k.CollectionTeaKey? && k.id == id
    case ConsumptionsOfUser(user) => k.ConsumedKey? && k.user == user
  }

  // Every key and scan prefix is a head of one byte other than 'i', or of two bytes starting with
  // 'i', followed by a body. No head begins another.

  predicate IsHead(h: Bytes) {
    (|h| == 1 && h[0] != INDEX) || (|h| == 2 && h[0] == INDEX)
  }

  function Head(k: Key): (h: Bytes)
    ensures IsHead(h)
  {
    match k
    case VersionKey => [VERSION]
    case RecordKey(_) => [RECORD]
    case RecordNameKey(_) => [RECORD_NAME_INDEX]
    case QRKey(_) => [QR_CODE]
    case TagCategoryKey(_) => [TAG_CATEGORY]
    case TagCategoryNameKey(_) => TAG_CATEGORY_INDEX_NAME
    case TagKey(_) => [TAG]
    case TagNameKey(_) => TAG_INDEX_NAME
    case CategoryTagNameKey(_, _) => TAG_INDEX_CATEGORY_NAME
    case TagTeaKey(_, _) => TAG_INDEX_TEA
    case TeaTagKey(_, _) => TEA_INDEX_TAG
    case CollectionKey(_, _) => [COLLECTION]
    case CollectionTeaKey(_, _) => COLLECTION_INDEX_TEA
    case UserKey(_) => [USER]
    case AppleIDKey(_) => USER_INDEX_APPLE_ID
    case DeviceKey(_) => [DEVICE]
    case UserDevicesKey(_) => USER_INDEX_DEVICES
    case NotificationKey(_) => [NOTIFICATION]
    case UserNotificationsKey(_) => USER_INDEX_NOTIFICATIONS
    case ConsumedKey(_, _, _) => USER_INDEX_CONSUMPTION
  }

  function Body(k: Key): Bytes {
    match k
    case VersionKey => []
    case RecordKey(id) => id.bytes
    case RecordNameKey(name) => name
    case QRKey(id) => id.bytes
    case TagCategoryKey(id) => id.bytes
    case TagCategoryNameKey(name) => name
    case TagKey(id) => id.bytes
    case TagNameKey(name) => name
    case CategoryTagNameKey(category, name) => category.bytes + name
    case TagTeaKey(tag, tea) => tag.bytes + tea.bytes
    case TeaTagKey(tea, tag) => tea.bytes + tag.bytes
    case CollectionKey(id, user) => user.bytes + id.bytes
    case CollectionTeaKey(id, tea) => id.bytes + tea.bytes
    case UserKey(id) => id.bytes
    case AppleIDKey(appleId) => appleId
    case DeviceKey(id) => id.bytes
    case UserDevicesKey(user) => user.bytes
    case NotificationKey(id) => id.bytes
    case UserNotificationsKey(user) => user.bytes
    case ConsumedKey(user, ts, tea) => user.bytes + (BigEndian(AsUint64(ts), 8) + tea.bytes)
  }

  lemma EncodeIsHeadAndBody(k: Key)
    ensures Encode(k) == Head(k) + Body(k)
  {
  }

  /** One head and body is the beginning of another only with the same head. */
  lemma HeadsArePrefixFree(h: Bytes, a: Bytes, g: Bytes, b: Bytes)
    requires IsHead(h) && IsHead(g)
    ensures h + a <= g + b <==> h == g && a <= b
  {
    if h + a <= g + b {
      assert (h + a)[0] == (g + b)[0];
      assert |h| == |g|;
      assert h == (h + a)[..|h|] == (g + b)[..|h|] == g;
      assert a == (h + a)[|h|..] && b == (g + b)[|h|..];
      assert a == (g + b)[..|h + a|][|h|..];
      assert a == b[..|a|];
    }
    if h == g && a <= b {
      assert (g + b)[..|h + a|] == h + a;
    }
  }

  function ScanHead(s: Scan): (h: Bytes)
    ensures IsHead(h)
  {
    match s
    case AllRecords => [RECORD]
    case AllTagCategories => [TAG_CATEGORY]
    case AllTags => [TAG]
    case AllUsers => [USER]
    case RecordNames(_) => [RECORD_NAME_INDEX]
    case TagCategoryNames(_) => TAG_CATEGORY_INDEX_NAME
    case TagNames(_) => TAG_INDEX_NAME
    case CategoryTagNames(_, _) => TAG_INDEX_CATEGORY_NAME
    case TagsOfCategory(_) => TAG_INDEX_CATEGORY_NAME
    case TagsOfTea(_) => TEA_INDEX_TAG
    case TeasOfTag(_) => TAG_INDEX_TEA
    case CollectionsOfUser(_) => [COLLECTION]
    case TeasOfCollection(_) => COLLECTION_INDEX_TEA
    case ConsumptionsOfUser(_) => USER_INDEX_CONSUMPTION
  }

  function ScanBody(s: Scan): Bytes {
    match s
    case AllRecords => []
    case AllTagCategories => []
    case AllTags => []
    case AllUsers => []
    case RecordNames(p) => p
    case TagCategoryNames(p) => p
    case TagNames(p) => p
    case CategoryTagNames(category, p) => category.bytes + p
    case TagsOfCategory(category) => category.bytes
    case TagsOfTea(tea) => tea.bytes
    case TeasOfTag(tag) => tag.bytes
    case CollectionsOfUser(user) => user.bytes
    case TeasOfCollection(id) => id.bytes
    case ConsumptionsOfUser(user) => user.bytes
  }

  lemma ScanPrefixIsHeadAndBody(s: Scan)
    ensures ScanPrefix(s) == ScanHead(s) + ScanBody(s)
  {
  }

  /** A number for each kind of key, and its recovery from the head. */
  function KindOf(k: Key): nat {
    match k
    case VersionKey => 0
    case RecordKey(_) => 1
    case RecordNameKey(_) => 2
    case QRKey(_) => 3
    case TagCategoryKey(_) => 4
    case TagCategoryNameKey(_) => 5
    case TagKey(_) => 6
    case TagNameKey(_) => 7
    case CategoryTagNameKey(_, _) => 8
    case TagTeaKey(_, _) => 9
    case TeaTagKey(_, _) => 10
    case CollectionKey(_, _) => 11
    case CollectionTeaKey(_, _) => 12
    case UserKey(_) => 13
    case AppleIDKey(_) => 14
    case DeviceKey(_) => 15
    case UserDevicesKey(_) => 16
    case NotificationKey(_) => 17
    case UserNotificationsKey(_) => 18
    case ConsumedKey(_, _, _) => 19
  }

  function KindOfHead(h: Bytes): nat
    requires IsHead(h)
  {
    var c: int := if |h| == 1 then h[0] as int else 256 + h[1] as int;
    if c == VERSION then 0
    else if c == RECORD then 1
    else if c == RECORD_NAME_INDEX then 2
    else if c == QR_CODE then 3
    else if c == TAG_CATEGORY then 4
    else if c == 256 + 99 then 5
    else if c == TAG then 6
    else if c == 256 + 110 then 7
    else if c == 256 + 116 then 8
    else if c == 256 + 97 then 9
    else if c == 256 + 98 then 10
    else if c == COLLECTION then 11
    else if c == 256 + 108 then 12
    else if c == USER then 13
    else if c == 256 + 105 then 14
    else if c == DEVICE then 15
    else if c == 256 + 100 then 16
    else if c == NOTIFICATION then 17
    else if c == 256 + 117 then 18
    else 19
  }

  /** Each kind has a head of its own. */
  lemma HeadTellsKind(k: Key)
    ensures KindOfHead(Head(k)) == KindOf(k)
  {
  }

  /** Equal heads and bodies come from equal keys. */
  lemma PartsDetermineKey(j: Key, k: Key)
    requires KindOf(j) == KindOf(k) && Body(j) == Body(k)
    ensures j == k
  {
    match j
    case CategoryTagNameKey(_, _) => SplitAt16(j.category.bytes, j.name, k.category.bytes, k.name);
    case TagTeaKey(_, _) => SplitAt16(j.tag.bytes, j.tea.bytes, k.tag.bytes, k.tea.bytes);
    case TeaTagKey(_, _) => SplitAt16(j.tea.bytes, j.tag.bytes, k.tea.bytes, k.tag.bytes);
    case CollectionKey(_, _) => SplitAt16(j.user.bytes, j.id.bytes, k.user.bytes, k.id.bytes);
    case CollectionTeaKey(_, _) => SplitAt16(j.id.bytes, j.tea.bytes, k.id.bytes, k.tea.bytes);
    case ConsumedKey(_, _, _) =>
      SplitAt16(j.user.bytes, BigEndian(AsUint64(j.ts), 8) + j.tea.bytes, k.user.bytes, BigEndian(AsUint64(k.ts), 8) + k.tea.bytes);
      TimesDiffer(j.ts, j.tea, k.ts, k.tea);
    case _ =>
  }

  lemma SplitAt16(a: Bytes16, x: Bytes, b: Bytes16, y: Bytes)
    requires a + x == b + y
    ensures a == b && x == y
  {
    assert a == (a + x)[..16] && b == (b + y)[..16];
    assert x == (a + x)[16..] && y == (b + y)[16..];
  }

  lemma TimesDiffer(s: Int64, a: Uuid, t: Int64, b: Uuid)
    requires BigEndian(AsUint64(s), 8) + a.bytes == BigEndian(AsUint64(t), 8) + b.bytes
    ensures s == t && a == b
  {
    var x, y := BigEndian(AsUint64(s), 8), BigEndian(AsUint64(t), 8);
    assert x == (x + a.bytes)[..8] && y == (y + b.bytes)[..8];
    assert a.bytes == (x + a.bytes)[8..] && b.bytes == (y + b.bytes)[8..];
    EightBytes();
    ValueOfBigEndian(AsUint64(s), 8);
    ValueOfBigEndian(AsUint64(t), 8);
  }

  /** No two keys collide, whatever their kinds and arguments. */
  lemma KeysAreDistinct(j: Key, k: Key)
    ensures Encode(j) == Encode(k) <==> j == k
  {
    if Encode(j) == Encode(k) {
      EncodeIsHeadAndBody(j);
      EncodeIsHeadAndBody(k);
      HeadsArePrefixFree(Head(j), Body(j), Head(k), Body(k));
      HeadsArePrefixFree(Head(k), Body(k), Head(j), Body(j));
      HeadTellsKind(j);
      HeadTellsKind(k);
      assert |Body(j)| == |Body(k)|;
      PartsDetermineKey(j, k);
    }
  }

  /** The kind of key a scan is for. */
  function ScanKind(s: Scan): nat {
    match s
    case AllRecords => 1
    case AllTagCategories => 4
    case AllTags => 6
    case AllUsers => 13
    case RecordNames(_) => 2
    case TagCategoryNames(_) => 5
    case TagNames(_) => 7
    case CategoryTagNames(_, _) => 8
    case TagsOfCategory(_) => 8
    case TagsOfTea(_) => 10
    case TeasOfTag(_) => 9
    case CollectionsOfUser(_) => 11
    case TeasOfCollection(_) => 12
    case ConsumptionsOfUser(_) => 19
  }

  lemma ScanHeadTellsKind(s: Scan)
    ensures KindOfHead(ScanHead(s)) == ScanKind(s)
  {
  }

  lemma SameKindSameHead(s: Scan, k: Key)
    requires ScanKind(s) == KindOf(k)
    ensures ScanHead(s) == Head(k)
  {
  }

  lemma PrefixAt16(a: Bytes16, x: Bytes, b: Bytes16, y: Bytes)
    ensures a + x <= b + y <==> a == b && x <= y
    ensures a <= b + y <==> a == b
    ensures a <= b <==> a == b
  {
    assert b == (b + y)[..16];
    if a + x <= b + y {
      assert a == (a + x)[..16] == (b + y)[..|a + x|][..16];
      assert x == (a + x)[16..] && y == (b + y)[16..];
      assert x == (b + y)[..|a + x|][16..];
      assert x == y[..|x|];
    }
  }

  lemma BodiesOfWanted(s: Scan, k: Key)
    requires ScanKind(s) == KindOf(k)
    ensures ScanBody(s) <= Body(k) <==> Wanted(s, k)
  {
    match s
    case CategoryTagNames(category, p) => PrefixAt16(category.bytes, p, k.category.bytes, k.name);
    case TagsOfCategory(category) => PrefixAt16(category.bytes, [], k.category.bytes, k.name);
    case TagsOfTea(tea) => PrefixAt16(tea.bytes, [], k.tea.bytes, k.tag.bytes);
    case TeasOfTag(tag) => PrefixAt16(tag.bytes, [], k.tag.bytes, k.tea.bytes);
    case CollectionsOfUser(user) => PrefixAt16(user.bytes, [], k.user.bytes, k.id.bytes);
    case TeasOfCollection(id) => PrefixAt16(id.bytes, [], k.id.bytes, k.tea.bytes);
    case ConsumptionsOfUser(user) => PrefixAt16(user.bytes, [], k.user.bytes, BigEndian(AsUint64(k.ts), 8) + k.tea.bytes);
    case _ =>
  }

  lemma WantedHasKind(s: Scan, k: Key)
    ensures Wanted(s, k) ==> ScanKind(s) == KindOf(k)
  {
  }

  /** A range read by prefix finds exactly the keys it is meant to find, and no key of another kind. */
  lemma ScansAreExact(s: Scan, k: Key)
    ensures ScanPrefix(s) <= Encode(k) <==> Wanted(s, k)
  {
    EncodeIsHeadAndBody(k);
    ScanPrefixIsHeadAndBody(s);
    HeadsArePrefixFree(ScanHead(s), ScanBody(s), Head(k), Body(k));
    HeadTellsKind(k);
    ScanHeadTellsKind(s);
    WantedHasKind(s, k);
    if ScanKind(s) == KindOf(k) {
      SameKindSameHead(s, k);
      BodiesOfWanted(s, k);
    }
  }

  // ----- the layout, byte by byte -----

  /**
    Data keys are one letter and the arguments; index keys are 'i', another letter and the arguments.
    The consumption key is spelled out below.
   */
  lemma KeyLayout(k: Key)
    ensures match k
            case VersionKey => Encode(k) == ['v' as int]
            case RecordKey(id) => Encode(k) == ['r' as int] + id.bytes
            case RecordNameKey(name) => Encode(k) == ['n' as int] + name
            case QRKey(id) => Encode(k) == ['q' as int] + id.bytes
            case TagCategoryKey(id) => Encode(k) == ['c' as int] + id.bytes
            case TagCategoryNameKey(name) => Encode(k) == ['i' as int, 'c' as int] + name
            case TagKey(id) => Encode(k) == ['t' as int] + id.bytes
            case TagNameKey(name) => Encode(k) == ['i' as int, 'n' as int] + name
            case CategoryTagNameKey(category, name) => Encode(k) == ['i' as int, 't' as int] + (category.bytes + name)
            case TagTeaKey(tag, tea) => Encode(k) == ['i' as int, 'a' as int] + (tag.bytes + tea.bytes)
            case TeaTagKey(tea, tag) => Encode(k) == ['i' as int, 'b' as int] + (tea.bytes + tag.bytes)
            case CollectionKey(id, user) => Encode(k) == ['l' as int] + (user.bytes + id.bytes)
            case CollectionTeaKey(id, tea) => Encode(k) == ['i' as int, 'l' as int] + (id.bytes + tea.bytes)
            case UserKey(id) => Encode(k) == ['u' as int] + id.bytes
            case AppleIDKey(appleId) => Encode(k) == ['i' as int, 'i' as int] + appleId
            case DeviceKey(id) => Encode(k) == ['d' as int] + id.bytes
            case UserDevicesKey(user) => Encode(k) == ['i' as int, 'd' as int] + user.bytes
            case NotificationKey(id) => Encode(k) == ['o' as int] + id.bytes
            case UserNotificationsKey(user) => Encode(k) == ['i' as int, 'u' as int] + user.bytes
            case ConsumedKey(user, _, _) => Encode(k)[..18] == ['i' as int, 'x' as int] + user.bytes
  {
    EncodeIsHeadAndBody(k);
  }

  /** The consumption key: "ix", the user, the time as a big-endian 64-bit word in two's complement, the tea. */
  lemma ConsumptionKeyLayout(user: Uuid, ts: Int64, tea: Uuid)
    ensures var key := Encode(ConsumedKey(user, ts, tea));
            && |key| == 42 && key[..18] == ['i' as int, 'x' as int] + user.bytes && key[26..] == tea.bytes
            && 0x100_0000_0000_0000 * (key[18] as int) + 0x1_0000_0000_0000 * (key[19] as int) + 0x100_0000_0000 * (key[20] as int) + 0x1_0000_0000 * (key[21] as int)
               + 0x100_0000 * (key[22] as int) + 0x1_0000 * (key[23] as int) + 0x100 * (key[24] as int) + key[25]
               == if ts < 0 then ts + 0x1_0000_0000_0000_0000 else ts
  {
    var key, word := Encode(ConsumedKey(user, ts, tea)), BigEndian(AsUint64(ts), 8);
    assert key == ConsumptionByUserID(user) + word + tea.bytes;
    assert key[18..26] == word;
    EightBytes();
    ValueOfBigEndian(AsUint64(ts), 8);
    ValueOfEight(word);
  }

  /** What each scan finds, by the constructor that builds its prefix. */
  lemma ScansFind(s: Scan, k: Key)
    ensures match s
            case AllRecords => Records() <= Encode(k) <==> k.RecordKey?
            case AllTagCategories => TagCategories() <= Encode(k) <==> k.TagCategoryKey?
            case AllTags => Tags() <= Encode(k) <==> k.TagKey?
            case AllUsers => Users() <= Encode(k) <==> k.UserKey?
            case RecordNames(p) => RecordsByName(p) <= Encode(k) <==> k.RecordNameKey? && p <= k.name
            case TagCategoryNames(p) => TagCategoryByName(p) <= Encode(k) <==> k.TagCategoryNameKey? && p <= k.name
            case TagNames(p) => TagsByName(p) <= Encode(k) <==> k.TagNameKey? && p <= k.name
            case CategoryTagNames(category, p) =>
              TagsByNameAndCategory(category, p) <= Encode(k) <==> k.CategoryTagNameKey? && k.category == category && p <= k.name
            case TagsOfCategory(category) => TagsByCategory(category) <= Encode(k) <==> k.CategoryTagNameKey? && k.category == category
            case TagsOfTea(tea) => TagsByTea(tea) <= Encode(k) <==> k.TeaTagKey? && k.tea == tea
            case TeasOfTag(tag) => TeasByTag(tag) <= Encode(k) <==> k.TagTeaKey? && k.tag == tag
            case CollectionsOfUser(user) => UserCollections(user) <= Encode(k) <==> k.CollectionKey? && k.user == user
            case TeasOfCollection(id) => RecordsByCollection(id) <= Encode(k) <==> k.CollectionTeaKey? && k.id == id
            case ConsumptionsOfUser(user) => ConsumptionByUserID(user) <= Encode(k) <==> k.ConsumedKey? && k.user == user
  {
    ScansAreExact(s, k);
  }
}
