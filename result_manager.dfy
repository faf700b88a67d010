/**
  The in-memory store of analysis results: for every image path, the
  record of its latest analysis, in the order the paths were first
  analysed.
 */
module ResultManager {
  import opened Common
  import opened OrderedMaps
  import opened BoundingBoxesDrawer
  import opened ImageAnalyzer

  /** `{'model': ..., 'text': ..., 'predictions': ..., 'bounding_boxes': ...}`. */
  datatype AnalysisRecord = AnalysisRecord(model: string, text: string,
                                           predictions: seq<Prediction>, boundingBoxes: seq<Box>)

  class ResultManager {
    /** `self.results`, keyed by image path. */
    var results: OrderedMap<AnalysisRecord>

    ghost predicate Valid()
      reads this
    {
      results.Valid()
    }

    constructor ()
      ensures Valid() && results.keys == []
    {
      results := Empty();
    }

    /** `getResult(image_path)`: the record of the path, or `None` for a
        path that has none. */
    function GetResult(imagePath: string): (r: Option<AnalysisRecord>)
      reads this
      requires Valid()
      ensures r.None? <==> imagePath !in results.keys
      ensures r.Some? ==> r.value == results.entries[imagePath]
    {
      results.Get(imagePath)
    }

    /** `getAllResult()`: every stored record, each under its path once, in
        the order the paths were first added. */
    function GetAllResult(): (r: seq<(string, AnalysisRecord)>)
      reads this
      requires Valid()
      ensures |r| == |results.keys|
      ensures forall i :: 0 <= i < |r| ==> r[i].0 == results.keys[i] && GetResult(r[i].0) == Some(r[i].1)
      ensures forall i, j :: 0 <= i < j < |r| ==> r[i].0 != r[j].0
      ensures forall p :: GetResult(p).Some? <==> exists i :: 0 <= i < |r| && r[i].0 == p
    {
      var r := results.Items();
      assert forall p :: p in results.keys ==> exists i :: 0 <= i < |r| && r[i].0 == p by {
        forall p | p in results.keys
          ensures exists i :: 0 <= i < |r| && r[i].0 == p
        {
          var i :| 0 <= i < |results.keys| && results.keys[i] == p;
          assert r[i].0 == p;
        }
      }
      r
    }

    /** `addResult(...)`: stores the record under the path, replacing any
        earlier record of that path and no other. */
    method AddResult(imagePath: string, model: string, text: string,
                     predictions: seq<Prediction>, boundingBoxes: seq<Box>)
      requires Valid()
      modifies this
      ensures Valid()
      ensures results == old(results).Put(imagePath, AnalysisRecord(model, text, predictions, boundingBoxes))
      ensures GetResult(imagePath) == Some(AnalysisRecord(model, text, predictions, boundingBoxes))
      ensures forall p :: p != imagePath ==> GetResult(p) == old(GetResult(p))
      ensures imagePath in old(results.keys) ==> results.keys == old(results.keys)
      ensures imagePath !in old(results.keys) ==> results.keys == old(results.keys) + [imagePath]
    {
      results := results.Put(imagePath, AnalysisRecord(model, text, predictions, boundingBoxes));
    }

    /** `clearResult()`: forgets every record. */
    method ClearResult()
      requires Valid()
      modifies this
      ensures Valid()
      ensures results.keys == [] && GetAllResult() == []
      ensures forall p :: GetResult(p) == None
    {
      results := Empty();
    }
  }

  /** Records stored under one path replace each other: after two
      additions for the same path only the second is found, and whether
      the path was new decides only the order. */
  lemma LatestRecordWins(m: OrderedMap<AnalysisRecord>, p: string, first: AnalysisRecord, second: AnalysisRecord)
    requires m.Valid()
    ensures m.Put(p, first).Put(p, second).Get(p) == Some(second)
    ensures m.Put(p, first).Put(p, second) == m.Put(p, second)
  {
  }
}
