/** The table of extension groups that the client uses, and what a search with it asks for and reaches. */
module SearchTable {
  import opened Collections
  import opened SearchLists
  import opened SearchGroups
  import opened SearchRepeats
  import opened SearchReceiver

  const AUDIO: seq<string> := ["ape", "flac", "m4a", "mid", "mp3", "mpc", "ogg", "ra", "wav", "wma"]
  const ARCHIVES: seq<string> := ["7z", "ace", "arj", "bz2", "gz", "lha", "lzh", "rar", "tar", "z", "zip"]
  const DOCUMENTS: seq<string> := ["doc", "docx", "htm", "html", "nfo", "odf", "odp", "ods", "odt", "pdf", "ppt",
                                   "pptx", "rtf", "txt", "xls", "xlsx", "xml", "xps"]
  const PROGRAMS: seq<string> := ["app", "bat", "cmd", "com", "dll", "exe", "jar", "msi", "ps1", "vbs", "wsf"]
  const IMAGES: seq<string> := ["bmp", "cdr", "eps", "gif", "ico", "img", "jpeg", "jpg", "png", "ps", "psd", "sfw",
                                "tga", "tif", "webp"]
  const VIDEOS: seq<string> := ["3gp", "asf", "asx", "avi", "divx", "flv", "mkv", "mov", "mp4", "mpeg", "mpg", "ogm",
                                "pxp", "qt", "rm", "rmvb", "swf", "vob", "webm", "wmv"]
  const DISC_IMAGES: seq<string> := ["iso", "mdf", "mds", "nrg", "vcd", "bwt", "ccd", "cdi", "pdi", "cue", "isz",
                                     "img", "vc4"]

  function Six(): seq<seq<string>> {
    [AUDIO, ARCHIVES, DOCUMENTS, PROGRAMS, IMAGES, VIDEOS]
  }

  /** The whole table. */
  function SearchExts(): seq<seq<string>> {
    Six() + [DISC_IMAGES]
  }

  // ----- the first six groups are sorted -----

  lemma {:induction false} StepsAscend(s: seq<string>, j: nat, k: nat)
    requires j < k < |s| && forall i :: 0 < i < |s| ==> Below(s[i - 1], s[i])
    ensures Below(s[j], s[k])
  {
    if j + 1 < k {
      StepsAscend(s, j, k - 1);
      BelowTransitive(s[j], s[k - 1], s[k]);
    }
  }

  lemma AscendsByStep(s: seq<string>)
    requires forall i :: 0 < i < |s| ==> Below(s[i - 1], s[i])
    ensures Ascending(s)
  {
    forall j, k | 0 <= j < k < |s| ensures Below(s[j], s[k]) {
      StepsAscend(s, j, k);
    }
  }

  lemma AudioAscend()
    ensures Ascending(AUDIO)
  {
    forall i | 0 < i < |AUDIO| ensures Below(AUDIO[i - 1], AUDIO[i]) {}
    AscendsByStep(AUDIO);
  }

  lemma ArchivesAscend()
    ensures Ascending(ARCHIVES)
  {
    forall i | 0 < i < |ARCHIVES| ensures Below(ARCHIVES[i - 1], ARCHIVES[i]) {}
    AscendsByStep(ARCHIVES);
  }

  lemma DocumentsAscend()
    ensures Ascending(DOCUMENTS)
  {
    forall i | 0 < i < |DOCUMENTS| ensures Below(DOCUMENTS[i - 1], DOCUMENTS[i]) {}
    AscendsByStep(DOCUMENTS);
  }

  lemma ProgramsAscend()
    ensures Ascending(PROGRAMS)
  {
    forall i | 0 < i < |PROGRAMS| ensures Below(PROGRAMS[i - 1], PROGRAMS[i]) {}
    AscendsByStep(PROGRAMS);
  }

  lemma ImagesAscend()
    ensures Ascending(IMAGES)
  {
    forall i | 0 < i < |IMAGES| ensures Below(IMAGES[i - 1], IMAGES[i]) {}
    AscendsByStep(IMAGES);
  }

  lemma VideosAscend()
    ensures Ascending(VIDEOS)
  {
    forall i | 0 < i < |VIDEOS| ensures Below(VIDEOS[i - 1], VIDEOS[i]) {}
    AscendsByStep(VIDEOS);
  }

  lemma SixAscend()
    ensures AllAscending(Six())
  {
    AudioAscend();
    ArchivesAscend();
    DocumentsAscend();
    ProgramsAscend();
    ImagesAscend();
    VideosAscend();
  }

  // ----- and have nothing in common -----

  predicate Apart(a: seq<string>, b: seq<string>) {
    forall j, k :: 0 <= j < |a| && 0 <= k < |b| ==> a[j] != b[k]
  }

  lemma ArchivesApart()
    ensures Apart(AUDIO, ARCHIVES)
  {
  }

  lemma DocumentsApart()
    ensures Apart(AUDIO, DOCUMENTS) && Apart(ARCHIVES, DOCUMENTS)
  {
  }

  lemma ProgramsApart()
    ensures Apart(AUDIO, PROGRAMS) && Apart(ARCHIVES, PROGRAMS) && Apart(DOCUMENTS, PROGRAMS)
  {
  }

  lemma ImagesApart()
    ensures Apart(AUDIO, IMAGES) && Apart(ARCHIVES, IMAGES) && Apart(DOCUMENTS, IMAGES) && Apart(PROGRAMS, IMAGES)
  {
  }

  lemma VideosApart()
    ensures Apart(AUDIO, VIDEOS) && Apart(ARCHIVES, VIDEOS) && Apart(DOCUMENTS, VIDEOS)
  {
  }

  lemma VideosApartAlso()
    ensures Apart(PROGRAMS, VIDEOS) && Apart(IMAGES, VIDEOS)
  {
  }

  lemma SixApart()
    ensures Disjoint(Six())
  {
    ArchivesApart();
    DocumentsApart();
    ProgramsApart();
    ImagesApart();
    VideosApart();
    VideosApartAlso();
    forall i, j | 0 <= i < j < 6 ensures Apart(Six()[i], Six()[j]) {}
    forall i, j, x | 0 <= i < j < 6 && x in Six()[i] ensures x !in Six()[j] {
      var k :| 0 <= k < |Six()[i]| && Six()[i][k] == x;
    }
  }

  lemma SixRegular()
    ensures Regular(Six())
  {
    SixAscend();
    SixApart();
  }

  // ----- the last group is never used -----

  /** The last group is not in order, and it shares an extension with the fifth. */
  lemma DiscImagesOutOfOrder()
    ensures !Ascending(DISC_IMAGES) && DISC_IMAGES[11] == "img" && IMAGES[5] == "img"
  {
    assert DISC_IMAGES[4] == "vcd" && DISC_IMAGES[5] == "bwt";
    assert !Below("vcd", "bwt");
  }

  /** So it always takes more than two removals: three of its extensions come before its first one. */
  lemma DiscImagesNeverUsed()
    ensures NeverUsed(DISC_IMAGES)
  {
    assert DISC_IMAGES[0] == "iso" && DISC_IMAGES[5] == "bwt" && DISC_IMAGES[6] == "ccd" && DISC_IMAGES[7] == "cdi";
    assert Below("bwt", "iso") && Below("ccd", "iso") && Below("cdi", "iso");
    ThreeEarly(DISC_IMAGES, "bwt", "ccd", "cdi");
  }

  // ----- searches with the table -----

  lemma TableIsSix(request: seq<string>)
    ensures Grouped(SearchExts(), request) == Grouped(Six(), request)
    ensures forall x ::
              Asks(SearchExts(), Grouped(SearchExts(), request), x) <==> Asks(Six(), Grouped(Six(), request), x)
  {
    DiscImagesNeverUsed();
    GroupedWithout(Six(), DISC_IMAGES, request);
  }

  /** For every request: of the seven groups the query uses exactly those of the first six that take two removals at
      most. It asks for nothing else than the request, and for all of it except what is requested more than once and in
      a group that is used. */
  lemma SearchExact(request: seq<string>)
    ensures var g := Grouped(SearchExts(), request);
            && (forall x :: Asks(SearchExts(), g, x) <==> x in request && !Lost(Six(), request, x))
            && ((forall x :: Asks(SearchExts(), g, x) <==> x in request) <==> forall x :: !Lost(Six(), request, x))
            && (forall k: nat :: k in g.chosen <==> k < 6 && Worth(Six()[k], request))
            && |g.rx| <= 2 * |g.chosen|
  {
    TableIsSix(request);
    SixRegular();
    RepeatsExact(Six(), request);
    QueryIsRequest(Six(), request);
    assert forall x :: Lost(Six(), request, x) ==> x in request;
  }

  /** So for every request without repetitions the query asks for exactly the request, and uses the groups of which at
      most two extensions are missing. */
  lemma UniqueExact(request: seq<string>)
    requires NoDup(request)
    ensures var g := Grouped(SearchExts(), request);
            && (forall x :: Asks(SearchExts(), g, x) <==> x in request)
            && (forall k: nat :: k in g.chosen <==> k < 6 && Nearly(Six()[k], request))
  {
    SearchExact(request);
    forall x ensures !Lost(Six(), request, x) {
      CountOnce(request, x);
    }
    forall k | 0 <= k < 6 ensures Worth(Six()[k], request) <==> Nearly(Six()[k], request) {
      CostOnce(Six()[k], request);
    }
  }

  /** With or without groups, every query that is sent asks for the requested extensions, except that with groups those
      are lost that are requested more than once and in a group that is used. */
  lemma DueAsksRequest(request: seq<string>, features: set<Feature>, x: string)
    ensures QueryAsks(SearchExts(), Due(SearchExts(), request, false, features), x)
       <==> x in request && !(InGroups(SearchExts(), request, features) && Lost(Six(), request, x))
  {
    SearchExact(request);
    DueAsksAlike(SearchExts(), request, features, x);
  }

  /** All audio files, with "ape" named twice: "ape" is not asked for. */
  lemma ApeTwiceIsLost()
    ensures var request := AUDIO + ["ape"];
            "ape" in request && !Asks(SearchExts(), Grouped(SearchExts(), request), "ape")
  {
    assert Six()[0] == AUDIO && AUDIO[0] == "ape";
    SixRegular();
    TwiceIsLost(Six(), 0, "ape");
    TableIsSix(AUDIO + ["ape"]);
  }

  lemma TableReceived(request: seq<string>)
    ensures Received(SearchExts(), Grouped(SearchExts(), request)) == Received(Six(), Grouped(Six(), request))
  {
    TableIsSix(request);
    SearchExact(request);
    ReceivedWithout(Six(), DISC_IMAGES, Grouped(Six(), request));
  }

  /** A receiver with this table never misses what is asked for, and goes by nothing else than the request and
      extensions of the groups that are used. Without repetitions it goes by exactly the request if and only if no
      removal is passed over. */
  lemma SearchReceived(request: seq<string>)
    ensures var received := Received(SearchExts(), Grouped(SearchExts(), request));
            && (forall x :: x in request && !Lost(Six(), request, x) ==> x in received)
            && (forall x :: x in received ==> x in request || InUsed(Six(), request, x))
            && (NoDup(request) ==> ((forall x :: x in received <==> x in request)
               <==> NonePassedOver(Six(), request, 6)))
  {
    TableReceived(request);
    SixRegular();
    ReceiverWithin(Six(), request);
    if NoDup(request) {
      ReceiverExact(Six(), request);
    }
  }

  lemma LastsNotBelowFirsts(i: nat, j: nat)
    requires i < j < 6
    ensures !Below(Six()[j][|Six()[j]| - 1], Six()[i][0])
  {
    if j == 1 {
    } else if j == 2 {
    } else if j == 3 {
    } else if j == 4 {
    } else {
    }
  }

  /** For any two of the six groups: a search for the first without its first extension and for the whole of the second
      makes the receiver go by the extension left out as well. */
  lemma LeftOutIsFound(i: nat, j: nat)
    requires i < j < 6
    ensures var request := AllButFirst(Six(), i, j);
            && NoDup(request) && Six()[i][0] !in request
            && Six()[i][0] in Received(SearchExts(), Grouped(SearchExts(), request))
  {
    SixRegular();
    LastsNotBelowFirsts(i, j);
    RemovalPassedOver(Six(), i, j);
    TableReceived(AllButFirst(Six(), i, j));
  }

  /** Audio files except "ape", and archives: "ape" is found too. */
  lemma ApeIsFound()
    ensures var request := AUDIO[1..] + ARCHIVES;
            "ape" !in request && "ape" in Received(SearchExts(), Grouped(SearchExts(), request))
  {
    LeftOutIsFound(0, 1);
    assert Six()[0] == AUDIO && Six()[1] == ARCHIVES && AUDIO[0] == "ape";
  }
}
