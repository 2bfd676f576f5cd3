/** The image paths a case database records, and the check that they still lead to an image. */
module ImagePaths {
  import opened Wrappers
  import opened Collaborators

  /** `path` is the first path the database records for image `id`. */
  predicate FirstPath(db: CaseDatabase, id: int, path: string) {
    db.available && id in db.imagePaths && |db.imagePaths[id]| > 0 && db.imagePaths[id][0] == path
  }

  /** Case.getImagePaths: the first recorded path of each image that has one; empty when the query fails. */
  method GetImagePaths(db: CaseDatabase) returns (imgPaths: map<int, string>)
    ensures forall id :: id in imgPaths <==> db.available && id in db.imagePaths && |db.imagePaths[id]| > 0
    ensures forall id :: id in imgPaths ==> FirstPath(db, id, imgPaths[id])
  {
    imgPaths := map[];
    var listing := db.ImagePaths();
    if listing.Err? {
      return;
    }
    var entries := listing.value;
    var pending := entries.Keys;
    while pending != {}
      invariant pending <= entries.Keys
      invariant forall id :: id in imgPaths <==> id in entries && id !in pending && |entries[id]| > 0
      invariant forall id :: id in imgPaths ==> imgPaths[id] == entries[id][0]
      decreases |pending|
    {
      ghost var chosen := Member(pending);
      var key :| key in pending;
      if |entries[key]| > 0 {
        imgPaths := imgPaths[key := entries[key][0]];
      }
      pending := pending - {key};
    }
  }

  /** Case.pathExists (a plain file is there) or Case.driveExists (a first byte can be read). */
  predicate ImagePresent(fs: FileSystem, path: string)
    reads fs
  {
    path in fs.disk.files || path in fs.readable
  }

  /** An image whose recorded path leads nowhere: the user is asked to locate it. */
  datatype MissingImage = MissingImage(id: int, path: string)

  /**
   * Case.checkImagesExist: one prompt for each image whose first recorded path
   * leads nowhere, in the order the path map yields them, and no other prompt.
   */
  method CheckImagesExist(fs: FileSystem, db: CaseDatabase) returns (prompts: seq<MissingImage>)
    ensures forall i :: 0 <= i < |prompts| ==>
              FirstPath(db, prompts[i].id, prompts[i].path) && !ImagePresent(fs, prompts[i].path)
    ensures forall id, path :: FirstPath(db, id, path) && !ImagePresent(fs, path) ==> MissingImage(id, path) in prompts
    ensures forall i, j :: 0 <= i < j < |prompts| ==> prompts[i].id != prompts[j].id
  {
    var imgPaths := GetImagePaths(db);
    prompts := [];
    var pending := imgPaths.Keys;
    while pending != {}
      invariant pending <= imgPaths.Keys
      invariant forall i :: 0 <= i < |prompts| ==>
                  prompts[i].id in imgPaths && prompts[i].id !in pending
                  && prompts[i].path == imgPaths[prompts[i].id] && !ImagePresent(fs, prompts[i].path)
      invariant forall id :: id in imgPaths && id !in pending && !ImagePresent(fs, imgPaths[id])
                  ==> MissingImage(id, imgPaths[id]) in prompts
      invariant forall i, j :: 0 <= i < j < |prompts| ==> prompts[i].id != prompts[j].id
      decreases |pending|
    {
      ghost var chosen := Member(pending);
      var objId :| objId in pending;
      var path := imgPaths[objId];
      var fileExists := path in fs.disk.files || path in fs.readable;
      if !fileExists {
        prompts := prompts + [MissingImage(objId, path)];
      }
      pending := pending - {objId};
    }
  }
}
