/**
 * The computations of the capture service around its storage and database calls: the
 * upload path, the page range of a listing, the displayed species and confidence of a
 * capture, the storage path recovered from an image URL, the per-day capture counts and
 * the most frequent species.
 */
module CaptureService {
  import opened Wrappers
  import opened Strings
  import Sorting

  const Bucket: string := "bird-images"
  const UnidentifiedSpecies: string := "Espécie não identificada"

  // Counting

  /** The number of occurrences of `x` in `xs`. */
  function Occurrences<T(==)>(xs: seq<T>, x: T): (n: nat)
    ensures n <= |xs|
    ensures n == 0 <==> x !in xs
  {
    if |xs| == 0 then 0
    else Occurrences(xs[..|xs| - 1], x) + (if xs[|xs| - 1] == x then 1 else 0)
  }

  lemma OccurrencesAppend<T>(xs: seq<T>, x: T, y: T)
    ensures Occurrences(xs + [y], x) == Occurrences(xs, x) + (if y == x then 1 else 0)
  {
    assert (xs + [y])[..|xs|] == xs;
  }

  predicate Distinct<T(==)>(xs: seq<T>)
  {
    forall i, j :: 0 <= i < j < |xs| ==> xs[i] != xs[j]
  }

  /** A distinct list holds each of its elements once. */
  lemma {:induction false} OccurrencesDistinct<T>(xs: seq<T>, x: T)
    requires Distinct(xs) && x in xs
    ensures Occurrences(xs, x) == 1
  {
    var p := xs[..|xs| - 1];
    assert xs == p + [xs[|xs| - 1]];
    if xs[|xs| - 1] == x {
      assert x !in p;
    } else {
      assert x in p;
      OccurrencesDistinct(p, x);
    }
  }

  // uploadImage

  /** `file.name.split('.').pop()`: the text after the last dot, or the whole name. */
  function FileExtension(fileName: string): string
  {
    var parts := Split(fileName, '.');
    parts[|parts| - 1]
  }

  /** `${userId}/${Date.now()}.${fileExt}`, the clock reading passed in as `now`. */
  function UploadPath(userId: string, now: nat, fileName: string): string
  {
    userId + "/" + NatToString(now) + "." + FileExtension(fileName)
  }

  /** The extension holds no dot; a name without a dot is its own extension, and a name
      with one ends with a dot and the extension. */
  lemma FileExtensionMeaning(fileName: string)
    ensures '.' !in FileExtension(fileName)
    ensures '.' !in fileName ==> FileExtension(fileName) == fileName
    ensures '.' in fileName ==>
      fileName == Join(Split(fileName, '.')[..|Split(fileName, '.')| - 1], '.') + "." + FileExtension(fileName)
  {
    var parts := Split(fileName, '.');
    SplitPartsHaveNoSeparator(fileName, '.');
    JoinSplit(fileName, '.');
    if '.' !in fileName {
      SplitNoSeparator(fileName, '.');
    } else {
      var init := parts[..|parts| - 1];
      JoinAppend(init, [parts[|parts| - 1]], '.');
      assert init + [parts[|parts| - 1]] == parts;
    }
  }

  /** The upload path gives back the user, the clock reading and the extension: it splits
      at its one slash into the user and the file name, and the file name at its one dot. */
  lemma UploadPathRoundTrip(userId: string, now: nat, fileName: string)
    requires '/' !in userId && '/' !in fileName
    ensures Split(UploadPath(userId, now, fileName), '/') == [userId, NatToString(now) + "." + FileExtension(fileName)]
    ensures Split(NatToString(now) + "." + FileExtension(fileName), '.') == [NatToString(now), FileExtension(fileName)]
    ensures ParseDigits(NatToString(now)) == now
  {
    var ext := FileExtension(fileName);
    FileExtensionMeaning(fileName);
    SplitPartsWithout(fileName, '.', '/');
    FileNameSplit(now, ext);
    var name := NatToString(now) + "." + ext;
    assert UploadPath(userId, now, fileName) == userId + ['/'] + name;
    SplitAtOnly(userId, '/', name);
    NatToStringRoundTrip(now);
  }

  /** The file name `${Date.now()}.${fileExt}` holds no slash and splits at its one dot. */
  lemma FileNameSplit(now: nat, ext: string)
    requires '.' !in ext && '/' !in ext
    ensures '/' !in NatToString(now) + "." + ext
    ensures Split(NatToString(now) + "." + ext, '.') == [NatToString(now), ext]
  {
    var digits := NatToString(now);
    assert '/' !in digits && '.' !in digits by {
      forall k | 0 <= k < |digits| ensures digits[k] != '/' && digits[k] != '.' {
      }
    }
    assert digits + "." + ext == digits + ['.'] + ext;
    SplitAtOnly(digits, '.', ext);
  }

  /** `a + [sep] + b` splits into `a` and `b` when neither holds `sep`. */
  lemma SplitAtOnly(a: string, sep: char, b: string)
    requires sep !in a && sep !in b
    ensures Split(a + [sep] + b, sep) == [a, b]
  {
    SplitPrefix(a, sep, b);
    SplitNoSeparator(b, sep);
  }

  // getCaptures: the page range

  datatype PageBounds = PageBounds(from: int, to: int)

  /** `from = (page - 1) * limit` and `to = from + limit - 1`, both inclusive. */
  function PageRange(page: int, limit: int): (r: PageBounds)
    ensures r.to - r.from + 1 == limit
  {
    var from := (page - 1) * limit;
    PageBounds(from, from + limit - 1)
  }

  /** The next page starts right after this one ends. */
  lemma PagesAdjacent(page: int, limit: int)
    ensures PageRange(page + 1, limit).from == PageRange(page, limit).to + 1
  {
    assert page * limit == (page - 1) * limit + limit;
  }

  /** With a positive limit, every index from 0 on lies on exactly one page from 1 on. */
  lemma PageOfIndex(i: nat, limit: int) returns (page: int)
    requires limit > 0
    ensures page >= 1 && PageRange(page, limit).from <= i <= PageRange(page, limit).to
    ensures forall q :: PageRange(q, limit).from <= i <= PageRange(q, limit).to ==> q == page
  {
    page := i / limit + 1;
    DivisionBounds(i, limit);
    forall q | PageRange(q, limit).from <= i <= PageRange(q, limit).to ensures q == page {
      if q < page {
        PagesBefore(q, page, limit);
      } else if q > page {
        PagesBefore(page, q, limit);
      }
    }
  }

  lemma DivisionBounds(i: nat, limit: int)
    requires limit > 0
    ensures (i / limit) * limit <= i < (i / limit) * limit + limit
  {
    assert i == (i / limit) * limit + i % limit;
  }

  /** With a positive limit, an earlier page ends before a later one begins. */
  lemma PagesBefore(p: int, q: int, limit: int)
    requires limit > 0 && p < q
    ensures PageRange(p, limit).to < PageRange(q, limit).from
  {
    assert (q - 1) * limit - p * limit == (q - 1 - p) * limit;
    assert (q - 1 - p) * limit >= 0;
  }

  // getCaptures and getRecentCaptures: the displayed species and confidence

  datatype DetectionRow = DetectionRow(speciesName: string, confidence: real)

  /** A capture row: its `bird_detections` (absent when `None`) and the `species` and
      `confidence` of its `metadata` (absent when `None`). */
  datatype CaptureRow = CaptureRow(
    detections: Option<seq<DetectionRow>>,
    metaSpecies: Option<string>,
    metaConfidence: Option<real>)

  datatype DisplayedCapture = DisplayedCapture(species: string, confidence: real)

  /** `a || b || ... || fallback`: the first present value that is not `falsy`. */
  function FirstTruthy<T(==)>(candidates: seq<Option<T>>, falsy: T, fallback: T): T
  {
    if |candidates| == 0 then fallback
    else if candidates[0].Some? && candidates[0].value != falsy then candidates[0].value
    else FirstTruthy(candidates[1..], falsy, fallback)
  }

  predicate Truthy<T(==)>(o: Option<T>, falsy: T)
  {
    o.Some? && o.value != falsy
  }

  /** The chain yields the candidate at the first truthy position `i`, or the fallback
      (`i == |candidates|`) when there is none. */
  lemma {:induction false} FirstTruthyMeaning<T>(candidates: seq<Option<T>>, falsy: T, fallback: T) returns (i: nat)
    ensures i <= |candidates|
    ensures forall j :: 0 <= j < i ==> !Truthy(candidates[j], falsy)
    ensures i < |candidates| ==> Truthy(candidates[i], falsy) && FirstTruthy(candidates, falsy, fallback) == candidates[i].value
    ensures i == |candidates| ==> FirstTruthy(candidates, falsy, fallback) == fallback
  {
    if |candidates| == 0 || Truthy(candidates[0], falsy) {
      i := 0;
    } else {
      var i' := FirstTruthyMeaning(candidates[1..], falsy, fallback);
      i := i' + 1;
    }
  }

  /** `capture.bird_detections?.[0]`. */
  function FirstDetection(c: CaptureRow): Option<DetectionRow>
  {
    if c.detections.Some? && |c.detections.value| > 0 then Some(c.detections.value[0]) else None
  }

  function SpeciesOf(d: Option<DetectionRow>): Option<string>
  {
    if d.Some? then Some(d.value.speciesName) else None
  }

  function ConfidenceOf(d: Option<DetectionRow>): Option<real>
  {
    if d.Some? then Some(d.value.confidence) else None
  }

  /** The `species` and `confidence` written into the metadata of each listed capture. */
  function Display(c: CaptureRow): DisplayedCapture
  {
    DisplayedCapture(
      FirstTruthy([SpeciesOf(FirstDetection(c)), c.metaSpecies], "", UnidentifiedSpecies),
      FirstTruthy([ConfidenceOf(FirstDetection(c)), c.metaConfidence], 0.0, 0.0))
  }

  /** The displayed species is the first detection's non-empty species name, else the
      non-empty metadata species, else the "unidentified" text; the confidence likewise
      falls through zero values down to 0. */
  lemma DisplayMeaning(c: CaptureRow)
    ensures var first := FirstDetection(c);
      Display(c).species ==
        if first.Some? && first.value.speciesName != "" then first.value.speciesName
        else if c.metaSpecies.Some? && c.metaSpecies.value != "" then c.metaSpecies.value
        else UnidentifiedSpecies
    ensures var first := FirstDetection(c);
      Display(c).confidence ==
        if first.Some? && first.value.confidence != 0.0 then first.value.confidence
        else if c.metaConfidence.Some? && c.metaConfidence.value != 0.0 then c.metaConfidence.value
        else 0.0
    ensures Display(c).species != ""
  {
    var i := FirstTruthyMeaning([SpeciesOf(FirstDetection(c)), c.metaSpecies], "", UnidentifiedSpecies);
    var j := FirstTruthyMeaning([ConfidenceOf(FirstDetection(c)), c.metaConfidence], 0.0, 0.0);
  }

  /** `data.map(...)` over the listed captures. */
  function DisplayAll(captures: seq<CaptureRow>): (r: seq<DisplayedCapture>)
    ensures |r| == |captures|
    ensures forall k :: 0 <= k < |captures| ==> r[k] == Display(captures[k])
  {
    if |captures| == 0 then [] else DisplayAll(captures[..|captures| - 1]) + [Display(captures[|captures| - 1])]
  }

  // deleteCapture: the storage path

  /** `parts.findIndex(part => part === x)`. */
  function FindIndex(parts: seq<string>, x: string): (i: int)
    ensures -1 <= i < |parts|
    ensures i == -1 <==> x !in parts
    ensures i >= 0 ==> parts[i] == x && forall j :: 0 <= j < i ==> parts[j] != x
  {
    if |parts| == 0 then -1
    else if parts[0] == x then 0
    else
      var i := FindIndex(parts[1..], x);
      if i == -1 then -1 else i + 1
  }

  /** The path of the image inside the bucket, or `None` when the URL has no bucket
      segment, in which case nothing is removed from storage. */
  function StoragePath(imageUrl: string): Option<string>
  {
    var urlParts := Split(imageUrl, '/');
    var bucketIndex := FindIndex(urlParts, Bucket);
    if bucketIndex == -1 then None else Some(Join(urlParts[bucketIndex + 1..], '/'))
  }

  /** A storage path is found exactly when a segment of the URL is the bucket name; the URL
      is then everything up to the first such segment, a slash and the path, and the path's
      segments are the URL's segments after it. */
  lemma StoragePathMeaning(imageUrl: string) returns (b: nat)
    ensures StoragePath(imageUrl).None? <==> Bucket !in Split(imageUrl, '/')
    ensures StoragePath(imageUrl).Some? ==>
      && b < |Split(imageUrl, '/')|
      && Split(imageUrl, '/')[b] == Bucket
      && Bucket !in Split(imageUrl, '/')[..b]
      && StoragePath(imageUrl).value == Join(Split(imageUrl, '/')[b + 1..], '/')
    ensures StoragePath(imageUrl).Some? && b + 1 < |Split(imageUrl, '/')| ==>
      && imageUrl == Join(Split(imageUrl, '/')[..b + 1], '/') + "/" + StoragePath(imageUrl).value
      && Split(StoragePath(imageUrl).value, '/') == Split(imageUrl, '/')[b + 1..]
  {
    var parts := Split(imageUrl, '/');
    var i := FindIndex(parts, Bucket);
    b := if i >= 0 then i else 0;
    if i >= 0 && i + 1 < |parts| {
      JoinSplit(imageUrl, '/');
      SplitPartsHaveNoSeparator(imageUrl, '/');
      assert parts[..b + 1] + parts[b + 1..] == parts;
      JoinAppend(parts[..b + 1], parts[b + 1..], '/');
      SplitJoin(parts[b + 1..], '/');
    }
  }

  // getDailyStats

  datatype DayCount = DayCount(day: int, count: nat)

  /** The `reduce` into `dailyStats`: the number of captures of each day that has one. */
  method CountByDay(captureDays: seq<int>) returns (dailyStats: map<int, nat>)
    ensures forall d :: d in dailyStats <==> d in captureDays
    ensures forall d :: d in dailyStats ==> dailyStats[d] == Occurrences(captureDays, d)
  {
    dailyStats := map[];
    for n := 0 to |captureDays|
      invariant forall d :: d in dailyStats <==> d in captureDays[..n]
      invariant forall d :: d in dailyStats ==> dailyStats[d] == Occurrences(captureDays[..n], d)
    {
      var date := captureDays[n];
      assert captureDays[..n + 1] == captureDays[..n] + [date];
      forall d ensures Occurrences(captureDays[..n + 1], d) == Occurrences(captureDays[..n], d) + (if date == d then 1 else 0) {
        OccurrencesAppend(captureDays[..n], d, date);
      }
      dailyStats := dailyStats[date := (if date in dailyStats then dailyStats[date] else 0) + 1];
    }
    assert captureDays[..|captureDays|] == captureDays;
  }

  /** `getDailyStats` with days as consecutive integers: `days` entries, oldest first,
      ending at `endDay`, each with the number of captures of that day (0 for none). */
  method DailyStats(captureDays: seq<int>, endDay: int, days: nat) returns (result: seq<DayCount>)
    ensures |result| == days
    ensures forall k :: 0 <= k < days ==>
      result[k] == DayCount(endDay - (days - 1 - k), Occurrences(captureDays, endDay - (days - 1 - k)))
  {
    var dailyStats := CountByDay(captureDays);
    result := [];
    for i := 0 to days
      invariant |result| == i
      invariant forall k :: 0 <= k < i ==>
        result[k] == DayCount(endDay - (i - 1 - k), Occurrences(captureDays, endDay - (i - 1 - k)))
    {
      var dateKey := endDay - i;
      var count := if dateKey in dailyStats then dailyStats[dateKey] else 0;
      result := [DayCount(dateKey, count)] + result;
    }
  }

  // getTopSpecies

  datatype SpeciesCount = SpeciesCount(species: string, count: nat)

  function DetectionsOf(c: CaptureRow): seq<DetectionRow>
  {
    if c.detections.Some? then c.detections.value else []
  }

  /** The non-empty species names among `ds`, in order. */
  function NamedIn(ds: seq<DetectionRow>): seq<string>
  {
    if |ds| == 0 then []
    else
      var last := ds[|ds| - 1].speciesName;
      NamedIn(ds[..|ds| - 1]) + (if last != "" then [last] else [])
  }

  /** The species names the tally visits, capture by capture. */
  function Names(captures: seq<CaptureRow>): seq<string>
  {
    if |captures| == 0 then [] else Names(captures[..|captures| - 1]) + NamedIn(DetectionsOf(captures[|captures| - 1]))
  }

  /** The distinct elements of `xs` in order of first occurrence: the order in which
      `Object.entries` lists the keys of the tally. */
  function FirstOccurrences(xs: seq<string>): seq<string>
  {
    if |xs| == 0 then []
    else
      var p := FirstOccurrences(xs[..|xs| - 1]);
      if xs[|xs| - 1] in p then p else p + [xs[|xs| - 1]]
  }

  lemma {:induction false} FirstOccurrencesMeaning(xs: seq<string>)
    ensures Distinct(FirstOccurrences(xs))
    ensures forall x :: x in FirstOccurrences(xs) <==> x in xs
  {
    if |xs| > 0 {
      var p := xs[..|xs| - 1];
      FirstOccurrencesMeaning(p);
      assert xs == p + [xs[|xs| - 1]];
    }
  }

  /** The tally as a list of entries: one per species, with its number of occurrences. */
  function Entries(names: seq<string>): (r: seq<SpeciesCount>)
    ensures |r| == |FirstOccurrences(names)|
  {
    var keys := FirstOccurrences(names);
    seq(|keys|, k requires 0 <= k < |keys| => SpeciesCount(keys[k], Occurrences(names, keys[k])))
  }

  /** `(capture.bird_detections || []).forEach(...)` inside the `reduce`. */
  method TallyCapture(c: CaptureRow, counts: map<string, nat>, keys: seq<string>, ghost seen: seq<string>)
    returns (counts': map<string, nat>, keys': seq<string>)
    requires keys == FirstOccurrences(seen)
    requires forall x :: x in counts <==> x in seen
    requires forall x :: x in counts ==> counts[x] == Occurrences(seen, x)
    ensures keys' == FirstOccurrences(seen + NamedIn(DetectionsOf(c)))
    ensures forall x :: x in counts' <==> x in seen + NamedIn(DetectionsOf(c))
    ensures forall x :: x in counts' ==> counts'[x] == Occurrences(seen + NamedIn(DetectionsOf(c)), x)
  {
    var ds := DetectionsOf(c);
    counts', keys' := counts, keys;
    ghost var acc := seen;
    assert seen + NamedIn(ds[..0]) == seen;
    for j := 0 to |ds|
      invariant acc == seen + NamedIn(ds[..j])
      invariant keys' == FirstOccurrences(acc)
      invariant forall x :: x in counts' <==> x in acc
      invariant forall x :: x in counts' ==> counts'[x] == Occurrences(acc, x)
    {
      var name := ds[j].speciesName;
      NamedInStep(ds, j);
      if name != "" {
        counts', keys' := TallyName(name, counts', keys', acc);
        acc := acc + [name];
      }
    }
    assert ds[..|ds|] == ds;
  }

  /** `acc[name] = (acc[name] || 0) + 1`, with the key list kept in first-occurrence order. */
  method TallyName(name: string, counts: map<string, nat>, keys: seq<string>, ghost before: seq<string>)
    returns (counts': map<string, nat>, keys': seq<string>)
    requires keys == FirstOccurrences(before)
    requires forall x :: x in counts <==> x in before
    requires forall x :: x in counts ==> counts[x] == Occurrences(before, x)
    ensures keys' == FirstOccurrences(before + [name])
    ensures forall x :: x in counts' <==> x in before + [name]
    ensures forall x :: x in counts' ==> counts'[x] == Occurrences(before + [name], x)
  {
    keys' := keys;
    if name !in counts {
      keys' := keys + [name];
    }
    counts' := counts[name := (if name in counts then counts[name] else 0) + 1];
    TallyStep(before, name, counts, keys, counts', keys');
  }

  lemma NamedInStep(ds: seq<DetectionRow>, j: nat)
    requires j < |ds|
    ensures NamedIn(ds[..j + 1]) == NamedIn(ds[..j]) + if ds[j].speciesName != "" then [ds[j].speciesName] else []
  {
    assert ds[..j + 1][..j] == ds[..j];
  }

  /** `acc[name] = (acc[name] || 0) + 1` keeps the tally of the names seen so far. */
  lemma TallyStep(before: seq<string>, name: string, counts: map<string, nat>, keys: seq<string>,
                   counts': map<string, nat>, keys': seq<string>)
    requires keys == FirstOccurrences(before)
    requires forall x :: x in counts <==> x in before
    requires forall x :: x in counts ==> counts[x] == Occurrences(before, x)
    requires counts' == counts[name := (if name in counts then counts[name] else 0) + 1]
    requires keys' == if name in counts then keys else keys + [name]
    ensures keys' == FirstOccurrences(before + [name])
    ensures forall x :: x in counts' <==> x in before + [name]
    ensures forall x :: x in counts' ==> counts'[x] == Occurrences(before + [name], x)
  {
    assert (before + [name])[..|before|] == before;
    FirstOccurrencesMeaning(before);
    forall x | x in counts' ensures counts'[x] == Occurrences(before + [name], x) {
      OccurrencesAppend(before, x, name);
    }
  }

  /** The `reduce` of `getTopSpecies` followed by `Object.entries(...).map(...)`. */
  method TallySpecies(captures: seq<CaptureRow>) returns (entries: seq<SpeciesCount>)
    ensures entries == Entries(Names(captures))
  {
    var counts: map<string, nat> := map[];
    var keys: seq<string> := [];
    for i := 0 to |captures|
      invariant keys == FirstOccurrences(Names(captures[..i]))
      invariant forall x :: x in counts <==> x in Names(captures[..i])
      invariant forall x :: x in counts ==> counts[x] == Occurrences(Names(captures[..i]), x)
    {
      assert captures[..i + 1][..i] == captures[..i];
      counts, keys := TallyCapture(captures[i], counts, keys, Names(captures[..i]));
    }
    assert captures[..|captures|] == captures;
    var names := Names(captures);
    FirstOccurrencesMeaning(names);
    entries := seq(|keys|, k requires 0 <= k < |keys| => SpeciesCount(keys[k], counts[keys[k]]));
  }

  /** The sum of the counts of `entries`. */
  function TotalCount(entries: seq<SpeciesCount>): nat
  {
    if |entries| == 0 then 0 else TotalCount(entries[..|entries| - 1]) + entries[|entries| - 1].count
  }

  /** The sum over `keys` of the occurrences of each in `names`. */
  function SumOccurrences(names: seq<string>, keys: seq<string>): nat
  {
    if |keys| == 0 then 0 else SumOccurrences(names, keys[..|keys| - 1]) + Occurrences(names, keys[|keys| - 1])
  }

  lemma {:induction false} SumOccurrencesAppend(names: seq<string>, x: string, keys: seq<string>)
    ensures SumOccurrences(names + [x], keys) == SumOccurrences(names, keys) + Occurrences(keys, x)
  {
    if |keys| > 0 {
      SumOccurrencesAppend(names, x, keys[..|keys| - 1]);
      OccurrencesAppend(names, keys[|keys| - 1], x);
    }
  }

  /** Over distinct keys covering all names, the occurrences add up to the number of names. */
  lemma {:induction false} SumOccurrencesAll(names: seq<string>, keys: seq<string>)
    requires Distinct(keys)
    requires forall x :: x in names ==> x in keys
    ensures SumOccurrences(names, keys) == |names|
  {
    if |names| == 0 {
      SumOccurrencesZero(keys);
    } else {
      var p, x := names[..|names| - 1], names[|names| - 1];
      assert names == p + [x];
      SumOccurrencesAll(p, keys);
      SumOccurrencesAppend(p, x, keys);
      OccurrencesDistinct(keys, x);
    }
  }

  lemma {:induction false} SumOccurrencesZero(keys: seq<string>)
    ensures SumOccurrences([], keys) == 0
  {
    if |keys| > 0 {
      SumOccurrencesZero(keys[..|keys| - 1]);
    }
  }

  lemma {:induction false} TotalCountOfCounts(names: seq<string>, keys: seq<string>)
    ensures TotalCount(seq(|keys|, k requires 0 <= k < |keys| => SpeciesCount(keys[k], Occurrences(names, keys[k]))))
      == SumOccurrences(names, keys)
  {
    if |keys| > 0 {
      var p := keys[..|keys| - 1];
      TotalCountOfCounts(names, p);
      var e := seq(|keys|, k requires 0 <= k < |keys| => SpeciesCount(keys[k], Occurrences(names, keys[k])));
      assert e[..|e| - 1] == seq(|p|, k requires 0 <= k < |p| => SpeciesCount(p[k], Occurrences(names, p[k])));
    }
  }

  /** Each named detection adds exactly one to the count of its species: the entries list
      every species once, each with its number of detections, and the counts add up to the
      number of named detections. */
  lemma TallyMeaning(captures: seq<CaptureRow>)
    ensures forall k :: 0 <= k < |Entries(Names(captures))| ==>
      && Entries(Names(captures))[k].species in Names(captures)
      && Entries(Names(captures))[k].species != ""
      && Entries(Names(captures))[k].count == Occurrences(Names(captures), Entries(Names(captures))[k].species)
      && Entries(Names(captures))[k].count >= 1
    ensures forall x :: x in Names(captures) ==> exists k :: 0 <= k < |Entries(Names(captures))| && Entries(Names(captures))[k].species == x
    ensures forall k, l :: 0 <= k < l < |Entries(Names(captures))| ==>
      Entries(Names(captures))[k].species != Entries(Names(captures))[l].species
    ensures TotalCount(Entries(Names(captures))) == |Names(captures)|
  {
    NamesNonEmpty(captures);
    EntriesMeaning(Names(captures));
  }

  /** The tally of a list of names, one entry per distinct name. */
  lemma EntriesMeaning(names: seq<string>)
    requires "" !in names
    ensures forall k :: 0 <= k < |Entries(names)| ==>
      && Entries(names)[k].species in names
      && Entries(names)[k].species != ""
      && Entries(names)[k].count == Occurrences(names, Entries(names)[k].species)
      && Entries(names)[k].count >= 1
    ensures forall x :: x in names ==> exists k :: 0 <= k < |Entries(names)| && Entries(names)[k].species == x
    ensures forall k, l :: 0 <= k < l < |Entries(names)| ==> Entries(names)[k].species != Entries(names)[l].species
    ensures TotalCount(Entries(names)) == |names|
  {
    EntriesValues(names);
    EntriesCover(names);
    FirstOccurrencesMeaning(names);
    TotalCountOfCounts(names, FirstOccurrences(names));
    SumOccurrencesAll(names, FirstOccurrences(names));
  }

  lemma EntriesValues(names: seq<string>)
    requires "" !in names
    ensures forall k :: 0 <= k < |Entries(names)| ==>
      && Entries(names)[k].species in names
      && Entries(names)[k].species != ""
      && Entries(names)[k].count == Occurrences(names, Entries(names)[k].species)
      && Entries(names)[k].count >= 1
  {
    FirstOccurrencesMeaning(names);
  }

  lemma EntriesCover(names: seq<string>)
    ensures forall x :: x in names ==> exists k :: 0 <= k < |Entries(names)| && Entries(names)[k].species == x
  {
    var keys := FirstOccurrences(names);
    FirstOccurrencesMeaning(names);
    forall x | x in names ensures exists k :: 0 <= k < |Entries(names)| && Entries(names)[k].species == x {
      var k :| 0 <= k < |keys| && keys[k] == x;
      assert Entries(names)[k].species == x;
    }
  }

  lemma {:induction false} NamesNonEmpty(captures: seq<CaptureRow>)
    ensures "" !in Names(captures)
  {
    if |captures| > 0 {
      NamesNonEmpty(captures[..|captures| - 1]);
      NamedInNonEmpty(DetectionsOf(captures[|captures| - 1]));
    }
  }

  lemma {:induction false} NamedInNonEmpty(ds: seq<DetectionRow>)
    ensures "" !in NamedIn(ds)
  {
    if |ds| > 0 {
      NamedInNonEmpty(ds[..|ds| - 1]);
    }
  }

  /** The sort key of `.sort((a, b) => b.count - a.count)`. */
  function CountKey(e: SpeciesCount): real { e.count as real }

  /** The end index `slice(0, end)` stops at on a list of `n` elements: a negative end
      counts from the back, and neither end passes the list's bounds. */
  function SliceEnd(n: nat, end: int): (m: nat)
    ensures m <= n
    ensures 0 <= end ==> m == if end < n then end else n
    ensures end < 0 ==> m == if n + end < 0 then 0 else n + end
  {
    if end < 0 then (if n + end < 0 then 0 else n + end)
    else if end < n then end else n
  }

  /** `.sort(...).slice(0, limit)`. */
  function TopSpecies(entries: seq<SpeciesCount>, limit: int): seq<SpeciesCount>
  {
    var sorted := Sorting.SortDesc(entries, CountKey);
    sorted[..SliceEnd(|sorted|, limit)]
  }

  /** The result is a prefix of the sorted tally, and no entry appears in it more
      often than in the tally. */
  lemma TopSpeciesSubTally(entries: seq<SpeciesCount>, limit: int)
    ensures TopSpecies(entries, limit) == Sorting.SortDesc(entries, CountKey)[..|TopSpecies(entries, limit)|]
    ensures multiset(TopSpecies(entries, limit)) <= multiset(entries)
  {
    var sorted := Sorting.SortDesc(entries, CountKey);
    Sorting.SortDescPermutes(entries, CountKey);
    var m := SliceEnd(|sorted|, limit);
    var top := sorted[..m];
    assert TopSpecies(entries, limit) == top;
    assert sorted == top + sorted[m..];
  }

  /** A prefix of the sorted tally: entries of the tally, by non-increasing count,
      none of a smaller count than an entry outside it. */
  lemma SortedPrefix(entries: seq<SpeciesCount>, m: nat)
    requires m <= |entries|
    ensures forall k :: 0 <= k < m ==> Sorting.SortDesc(entries, CountKey)[k] in entries
    ensures forall k, l :: 0 <= k < l < m ==>
      Sorting.SortDesc(entries, CountKey)[k].count >= Sorting.SortDesc(entries, CountKey)[l].count
    ensures forall e, k :: e in entries && e !in Sorting.SortDesc(entries, CountKey)[..m] && 0 <= k < m ==>
      e.count <= Sorting.SortDesc(entries, CountKey)[k].count
  {
    var sorted := Sorting.SortDesc(entries, CountKey);
    Sorting.SortDescSorted(entries, CountKey);
    Sorting.SortDescPermutes(entries, CountKey);
    forall k | 0 <= k < m ensures sorted[k] in entries {
      assert sorted[k] in multiset(sorted);
    }
    forall e | e in entries ensures e in sorted {
      assert e in multiset(entries);
    }
    Sorting.PrefixDominates(sorted, CountKey, m);
  }

  /** The result holds `min(limit, |entries|)` entries of the tally (for a negative
      limit, all but the last `-limit`), by non-increasing count, and no entry left
      out has a larger count than one kept. */
  lemma TopSpeciesMeaning(entries: seq<SpeciesCount>, limit: int)
    ensures 0 <= limit ==> |TopSpecies(entries, limit)| == if limit < |entries| then limit else |entries|
    ensures limit < 0 ==> |TopSpecies(entries, limit)| == if |entries| + limit < 0 then 0 else |entries| + limit
    ensures forall k :: 0 <= k < |TopSpecies(entries, limit)| ==> TopSpecies(entries, limit)[k] in entries
    ensures forall k, l :: 0 <= k < l < |TopSpecies(entries, limit)| ==>
      TopSpecies(entries, limit)[k].count >= TopSpecies(entries, limit)[l].count
    ensures forall e, k :: e in entries && e !in TopSpecies(entries, limit) && 0 <= k < |TopSpecies(entries, limit)| ==>
      e.count <= TopSpecies(entries, limit)[k].count
  {
    var sorted := Sorting.SortDesc(entries, CountKey);
    var m := SliceEnd(|sorted|, limit);
    SortedPrefix(entries, m);
    assert TopSpecies(entries, limit) == sorted[..m];
  }
}
