/** Values shared by every part of the downloader model: optional values,
    results, and the errors the downloader raises. */
module Common {

  datatype Option<+T> = None | Some(value: T)

  datatype Result<+T, +E> = Success(value: T) | Failure(error: E)

  /** The errors thrown along the modelled paths. Where the source throws a
      fixed message, the message is given beside the constructor. */
  datatype Error =
    | InvalidLink                 // '无效的B站视频链接'
    | VideoInfoFailed             // '获取视频信息失败'
    | VideoUrlFailed              // '获取视频下载地址失败'
    | CidNotFound                 // '无法获取视频CID'
    | TransferFailed              // the response stream or the file write emitted 'error'
    | MalformedResponse           // a TypeError from reading a field of a missing object
    | NetworkFailure              // axios rejected the request
    | ApiRejected(message: string)       // a non-zero upstream code, thrown with its message
    | FolderNotFound              // '未找到收藏夹信息'
    | FavoritesFailed(cause: Error)      // '获取收藏夹信息失败: ' + cause's message
}
